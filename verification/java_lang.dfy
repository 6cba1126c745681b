/** The few `java.lang.String` operations the dispatcher relies on, with the
    exceptions they throw. Strings are sequences of Unicode scalar values
    (`char`), so positions count code points rather than UTF-16 units. */
module JavaLang {
  import opened Wrappers

  /** Unchecked exceptions that can escape the dispatcher. */
  datatype Exception =
    | StringIndexOutOfBounds(index: int)   // `substring` with a bad begin index
    | NullPointer                          // a method call on a null reference

  /** `sub` occurs in `s` starting at position `i`. */
  predicate OccursAt(s: string, sub: string, i: int)
  {
    0 <= i && i + |sub| <= |s| && s[i..i + |sub|] == sub
  }

  /** `s.contains(sub)`: scans `s` from the left for an occurrence of `sub`. */
  predicate Contains(s: string, sub: string)
    decreases |s|
  {
    if |s| < |sub| then false
    else s[..|sub|] == sub || Contains(s[1..], sub)
  }

  /** `contains` is true exactly when `sub` occurs somewhere in `s`. */
  lemma {:induction false} ContainsIff(s: string, sub: string)
    ensures Contains(s, sub) <==> exists i :: OccursAt(s, sub, i)
    decreases |s|
  {
    if |s| < |sub| {
      forall i ensures !OccursAt(s, sub, i) { }
    } else if s[..|sub|] == sub {
      assert OccursAt(s, sub, 0);
    } else {
      ContainsIff(s[1..], sub);
      forall i | OccursAt(s[1..], sub, i) ensures OccursAt(s, sub, i + 1) {
        assert s[1..][i..i + |sub|] == s[i + 1..i + 1 + |sub|];
      }
      forall i | OccursAt(s, sub, i) ensures OccursAt(s[1..], sub, i - 1) {
        assert i != 0;
        assert s[1..][i - 1..i - 1 + |sub|] == s[i..i + |sub|];
      }
    }
  }

  /** `s.indexOf(c)`: the position of the first `c` in `s`, or -1 when there is none. */
  function IndexOf(s: string, c: char): (r: int)
    ensures -1 <= r < |s|
    ensures r == -1 <==> c !in s
    ensures r >= 0 ==> s[r] == c && c !in s[..r]
  {
    if s == [] then -1
    else if s[0] == c then 0
    else
      var k := IndexOf(s[1..], c);
      if k == -1 then -1 else k + 1
  }

  /** `s.substring(begin)`: the suffix from `begin` on; throws when `begin`
      lies outside `0..|s|`. */
  function Substring(s: string, begin: int): (r: Result<string, Exception>)
    ensures r.Ok? <==> 0 <= begin <= |s|
    ensures r.Ok? ==> s == s[..begin] + r.value
    ensures r.Err? ==> r.error == StringIndexOutOfBounds(begin)
  {
    if 0 <= begin <= |s| then Ok(s[begin..]) else Err(StringIndexOutOfBounds(begin))
  }
}
