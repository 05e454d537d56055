/** Session pairs and the one spelling that keys every store by them. */
module Sessions {
  import opened Text

  datatype SessionRef = SessionRef(runtimeEpoch: string, generation: nat)

  function PairKey(ref: SessionRef): string {
    ref.runtimeEpoch + "#" + Decimal(ref.generation)
  }

  /** Text up to its last `#`. */
  function LastHash(s: string): nat {
    if s == "" then 0 else if s[|s| - 1] == '#' then |s| - 1 else LastHash(s[..|s| - 1])
  }

  lemma {:induction false} HashBeforeDigits(front: string, digits: string)
    requires forall i :: 0 <= i < |digits| ==> IsDigit(digits[i])
    ensures LastHash(front + "#" + digits) == |front|
  {
    var s := front + "#" + digits;
    if digits == "" {
      assert s == front + "#";
    } else {
      assert s[..|s| - 1] == front + "#" + digits[..|digits| - 1];
      HashBeforeDigits(front, digits[..|digits| - 1]);
    }
  }

  /** Different pairs have different keys, whatever the epoch holds. */
  lemma PairKeyInjective(a: SessionRef, b: SessionRef)
    requires PairKey(a) == PairKey(b)
    ensures a == b
  {
    HashBeforeDigits(a.runtimeEpoch, Decimal(a.generation));
    HashBeforeDigits(b.runtimeEpoch, Decimal(b.generation));
    var s := PairKey(a);
    assert a.runtimeEpoch == s[..|a.runtimeEpoch|] && b.runtimeEpoch == s[..|b.runtimeEpoch|];
    assert Decimal(a.generation) == s[|a.runtimeEpoch| + 1..] && Decimal(b.generation) == s[|b.runtimeEpoch| + 1..];
    ValueOfDecimal(a.generation);
    ValueOfDecimal(b.generation);
  }
}
