/** Numbers falling into places that are each as wide. */
module Places {
  lemma Distributes(one: nat, other: nat, each: nat)
    ensures (one + other) * each == one * each + other * each
    ensures other * each >= 0
  {
  }

  lemma Steadily(one: nat, other: nat, each: nat)
    ensures one <= other ==> one * each <= other * each
  {
    if one <= other {
      Distributes(one, other - one, each);
    }
  }

  /** A number that falls in one place of those that are each so wide. */
  ghost predicate FallsIn(number: nat, place: nat, each: nat) {
    place * each <= number < place * each + each
  }

  lemma Divided(number: nat, each: nat)
    requires each > 0
    ensures FallsIn(number, number / each, each)
    ensures number == number / each * each + number % each
  {
  }

  lemma FallInOrder(number: nat, place: nat, later: nat, other: nat, each: nat)
    requires FallsIn(number, place, each) && FallsIn(later, other, each) && number <= later
    ensures place <= other
  {
    Steadily(other + 1, place, each);
    Distributes(other, 1, each);
  }

  /** A number falls in one place and no other. */
  lemma OnePlace(number: nat, place: nat, each: nat)
    requires each > 0 && FallsIn(number, place, each)
    ensures number / each == place
  {
    Divided(number, each);
    FallInOrder(number, place, number, number / each, each);
    FallInOrder(number, number / each, number, place, each);
  }

  lemma Quotient(place: nat, within: nat, each: nat)
    requires within < each
    ensures place * each + within >= 0 && (place * each + within) / each == place
  {
    Distributes(place, 0, each);
    OnePlace(place * each + within, place, each);
  }
}
