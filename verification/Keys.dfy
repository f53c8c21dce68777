/** The idempotency keys the services derive by string concatenation. */
module Keys {
  import opened Numerals
  import opened OrderState
  import Q = CompensationQueue

  function LineReservationKey(orderKey: string, index: nat): string {
    orderKey + ":inventory:" + Digits(index)
  }

  function ActionName(action: Action): string {
    if action == ConfirmPayment then "confirm" else "cancel"
  }

  /** The text of a compensation task key. */
  function TaskKeyText(k: Q.TaskKey): string {
    match k
    case LineKey(reservation, action) => reservation + ":compensation:" + ActionName(action)
    case AdminKey(key, index) => key + ":inventory:" + Digits(index)
  }

  /** How the keys read. */
  lemma KeyTexts(reservation: string, key: string, index: nat)
    ensures TaskKeyText(Q.LineKey(reservation, ConfirmPayment)) == reservation + ":compensation:confirm"
    ensures TaskKeyText(Q.LineKey(reservation, CancelPayment)) == reservation + ":compensation:cancel"
    ensures TaskKeyText(Q.AdminKey(key, index)) == LineReservationKey(key, index) == key + ":inventory:" + Digits(index)
  {
    assert reservation + ":compensation:" + "confirm" == reservation + (":compensation:" + "confirm");
    assert reservation + ":compensation:" + "cancel" == reservation + (":compensation:" + "cancel");
  }

  /** The last colon of a text determines both sides. */
  lemma LastColon(x: string, u: string, y: string, v: string)
    requires x + ":" + u == y + ":" + v
    requires ':' !in u && ':' !in v
    ensures x == y && u == v
  {
    var s := x + ":" + u;
    assert s[|x|] == ':' && s[|y|] == ':';
    assert forall i | |x| < i < |s| :: s[i] == u[i - |x| - 1];
    assert forall i | |y| < i < |s| :: s[i] == v[i - |y| - 1];
    assert |x| == |y|;
    assert x == s[..|x|] && y == s[..|y|];
    assert u == s[|x| + 1..] && v == s[|y| + 1..];
  }

  lemma CommonSuffix(x: string, y: string, z: string)
    requires x + z == y + z
    ensures x == y
  {
    assert x == (x + z)[..|x|] && y == (y + z)[..|y|];
  }

  /** Different orders, and different lines of one order, never share a reservation key. */
  lemma ReservationKeysInjective(a: string, i: nat, b: string, j: nat)
    requires LineReservationKey(a, i) == LineReservationKey(b, j)
    ensures a == b && i == j
  {
    assert a + ":inventory:" == (a + ":inventory") + ":" && b + ":inventory:" == (b + ":inventory") + ":";
    LastColon(a + ":inventory", Digits(i), b + ":inventory", Digits(j));
    CommonSuffix(a, b, ":inventory");
    ValueOfDigits(i);
    ValueOfDigits(j);
  }

  /** The last letter of the text tells the three kinds of key apart. */
  lemma LastLetter(k: Q.TaskKey)
    ensures var s := TaskKeyText(k);
            && |s| > 0
            && (k.AdminKey? <==> IsDigit(s[|s| - 1]))
            && (k.LineKey? ==> (s[|s| - 1] == 'm' <==> k.action == ConfirmPayment))
  {
  }

  /** The structured task keys of the queue are faithful to their texts: no two keys have the same text. */
  lemma TaskKeysInjective(k: Q.TaskKey, l: Q.TaskKey)
    requires TaskKeyText(k) == TaskKeyText(l)
    ensures k == l
  {
    LastLetter(k);
    LastLetter(l);
    if k.AdminKey? {
      ReservationKeysInjective(k.key, k.index, l.key, l.index);
    } else {
      var suffix := ":compensation:" + ActionName(k.action);
      assert TaskKeyText(k) == k.reservation + suffix && TaskKeyText(l) == l.reservation + suffix;
      CommonSuffix(k.reservation, l.reservation, suffix);
    }
  }
}
