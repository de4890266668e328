/**
 * The SubscriptionType enum: exactly two plans, each with a display name
 * and a monthly price.
 */
module SubscriptionTypes {
  datatype SubscriptionType = FREE | PREMIUM

  const FreePlanName := "Free Plan"
  const PremiumPlanName := "Premium Plan"
  const PremiumPrice: int := 299

  /** getDisplayName: the name given to the enum constant. */
  function DisplayName(t: SubscriptionType): (name: string)
    ensures t == FREE ==> name == FreePlanName
    ensures t == PREMIUM ==> name == PremiumPlanName
  {
    match t
    case FREE => FreePlanName
    case PREMIUM => PremiumPlanName
  }

  /** getPrice: the price given to the enum constant. */
  function Price(t: SubscriptionType): (price: int)
    ensures price == 0 <==> t == FREE
    ensures t == PREMIUM ==> price == PremiumPrice
    ensures price >= 0
  {
    match t
    case FREE => 0
    case PREMIUM => PremiumPrice
  }

  /** The constant name, as name() and the token claims spell it. */
  function Name(t: SubscriptionType): string
  {
    match t
    case FREE => "FREE"
    case PREMIUM => "PREMIUM"
  }

  /** Each plan is recovered from its display name, from its price and from its name. */
  lemma PlansAreDistinguishable(a: SubscriptionType, b: SubscriptionType)
    ensures DisplayName(a) == DisplayName(b) ==> a == b
    ensures Price(a) == Price(b) ==> a == b
    ensures Name(a) == Name(b) ==> a == b
  {
    if a != b {
      assert DisplayName(a)[0] != DisplayName(b)[0];
      assert Name(a)[0] != Name(b)[0];
    }
  }
}
