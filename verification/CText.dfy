/** The bounded, case-insensitive comparison of C strings that commands and mutex answers go through. */
module CText {
  import opened Bytes

  datatype Option<T> = None | Some(value: T)

  function Lower(c: Byte): Byte {
    if 65 <= c <= 90 then c + 32 else c
  }

  /** Past its last byte a string has its terminator. */
  function CharAt(s: seq<Byte>, k: nat): Byte {
    if k < |s| then s[k] else 0
  }

  /** `strncasecmp(a + k, b + k, n - k) == 0` */
  predicate SameTextFrom(a: seq<Byte>, b: seq<Byte>, n: nat, k: nat)
    decreases n - k
  {
    k >= n || (Lower(CharAt(a, k)) == Lower(CharAt(b, k))
               && (CharAt(a, k) == 0 || SameTextFrom(a, b, n, k + 1)))
  }

  predicate SameText(a: seq<Byte>, b: seq<Byte>, n: nat) {
    SameTextFrom(a, b, n, 0)
  }

  /** Equal byte for byte, but for case. */
  ghost predicate EqualFold(a: seq<Byte>, b: seq<Byte>) {
    |a| == |b| && forall k | 0 <= k < |a| :: Lower(a[k]) == Lower(b[k])
  }

  ghost predicate NoTerminator(s: seq<Byte>) {
    forall k | 0 <= k < |s| :: s[k] != 0
  }

  lemma {:induction false} SameTextFromExact(a: seq<Byte>, b: seq<Byte>, k: nat)
    requires NoTerminator(b) && k <= |b|
    ensures SameTextFrom(a, b, |b|, k)
       <==> (k < |b| ==> |b| <= |a|) && forall j | k <= j < |b| :: Lower(a[j]) == Lower(b[j])
    decreases |b| - k
  {
    if k < |b| {
      SameTextFromExact(a, b, k + 1);
    }
  }

  /** On text without terminators the comparison is equality of the first |b| bytes, but for case. */
  lemma SameTextExact(a: seq<Byte>, b: seq<Byte>)
    requires NoTerminator(b)
    ensures SameText(a, b, |b|) <==> |b| <= |a| && EqualFold(a[..|b|], b)
  {
    SameTextFromExact(a, b, 0);
  }
}
