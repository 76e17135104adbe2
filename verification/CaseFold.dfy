/**
 ASCII case in context values: the fold the server applies when it stores and checks them
 (packages/server/src/permissionContext.ts) and the SDK applies to its keys
 (packages/sdk/src/permissionContext.ts).
 */
module CaseFold {
  function FoldChar(c: char): char {
    if 'A' <= c <= 'Z' then (c as int + 32) as char else c
  }

  /** ASCII-only lowercase. */
  function FoldContextValue(value: string): string {
    seq(|value|, i requires 0 <= i < |value| => FoldChar(value[i]))
  }

  /** The same character, or one a letter of 'A'..'Z' and the other 32 above it. */
  predicate SameChar(c: char, d: char) {
    || c == d
    || ('A' <= c <= 'Z' && d as int == c as int + 32)
    || ('A' <= d <= 'Z' && c as int == d as int + 32)
  }

  predicate SameText(a: string, b: string) {
    |a| == |b| && forall i :: 0 <= i < |a| ==> SameChar(a[i], b[i])
  }

  /** Each letter of 'A'..'Z' becomes the one 32 above it, every other character stays, and none of 'A'..'Z' is left. */
  lemma FoldLowers(value: string)
    ensures |FoldContextValue(value)| == |value|
    ensures forall i :: 0 <= i < |value| ==>
              var c, d := value[i], FoldContextValue(value)[i];
              (if 'A' <= c <= 'Z' then d as int == c as int + 32 else d == c) && !('A' <= d <= 'Z')
  {
  }

  lemma SameCharFolds(c: char, d: char)
    ensures FoldChar(c) == FoldChar(d) <==> SameChar(c, d)
  {
  }

  /** Two values fold alike exactly when they have one length and, place by place, the same character up to ASCII case. */
  lemma FoldIdentifiesCase(a: string, b: string)
    ensures FoldContextValue(a) == FoldContextValue(b) <==> SameText(a, b)
  {
    hide FoldChar, SameChar;
    if |a| == |b| {
      forall i | 0 <= i < |a|
        ensures FoldContextValue(a)[i] == FoldContextValue(b)[i] <==> SameChar(a[i], b[i])
      {
        SameCharFolds(a[i], b[i]);
      }
    }
  }

  lemma FoldIsIdempotent(value: string)
    ensures FoldContextValue(FoldContextValue(value)) == FoldContextValue(value)
  {
  }
}
