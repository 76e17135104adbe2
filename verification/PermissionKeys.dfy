/**
 The SDK's keys for permission answers (packages/sdk/src/permissionCache.ts and
 permissionContext.ts): canonical JSON for the context, every part behind its length.
 */
module PermissionKeys {
  import opened CaseFold
  import opened Common
  import opened LengthPrefix

  type Context = map<string, string>

  // ------------------------------------------------------------------
  // The canonical context
  // ------------------------------------------------------------------

  function Hex(d: nat): char
    requires d < 16
  {
    ['0', '1', '2', '3', '4', '5', '6', '7', '8', '9', 'a', 'b', 'c', 'd', 'e', 'f'][d]
  }

  /** How JSON writes one character inside a string. */
  function Escape(c: char): (r: string)
    ensures 0 < |r|
  {
    if c == '"' then ['\\', '"']
    else if c == '\\' then ['\\', '\\']
    else if c as int == 8 then ['\\', 'b']
    else if c as int == 9 then ['\\', 't']
    else if c as int == 10 then ['\\', 'n']
    else if c as int == 12 then ['\\', 'f']
    else if c as int == 13 then ['\\', 'r']
    else if (c as int) < 32 then ['\\', 'u', '0', '0', Hex(c as int / 16), Hex(c as int % 16)]
    else [c]
  }

  function Escaped(s: string): string {
    if s == "" then "" else Escape(s[0]) + Escaped(s[1..])
  }

  /** A JSON string literal. */
  function Quoted(s: string): string {
    ['"'] + Escaped(s) + ['"']
  }

  function PairText(pair: (string, string)): string {
    "[" + Quoted(pair.0) + "," + Quoted(pair.1) + "]"
  }

  /** The pairs after the opening bracket, up to and with the closing one. */
  function PairsText(pairs: seq<(string, string)>): string {
    if pairs == [] then "]"
    else PairText(pairs[0]) + (if |pairs| == 1 then "" else ",") + PairsText(pairs[1..])
  }

  /** String order by character. */
  predicate Less(a: string, b: string) {
    if b == "" then false
    else if a == "" then true
    else a[0] < b[0] || (a[0] == b[0] && Less(a[1..], b[1..]))
  }

  lemma {:induction false} LessIsTotal(a: string, b: string)
    ensures a == b || Less(a, b) || Less(b, a)
    ensures !(Less(a, b) && Less(b, a)) && !Less(a, a)
  {
    if a != "" && b != "" {
      LessIsTotal(a[1..], b[1..]);
      assert a == [a[0]] + a[1..] && b == [b[0]] + b[1..];
    }
    if a != "" {
      LessIsTotal(a[1..], a[1..]);
    }
  }

  lemma {:induction false} LessIsTransitive(a: string, b: string, c: string)
    requires Less(a, b) && Less(b, c)
    ensures Less(a, c)
  {
    if a != "" && a[0] == b[0] == c[0] {
      LessIsTransitive(a[1..], b[1..], c[1..]);
    }
  }

  predicate IsLeast(first: string, keys: set<string>) {
    first in keys && forall k :: k in keys && k != first ==> Less(first, k)
  }

  lemma {:induction false} LeastExists(keys: set<string>)
    requires keys != {}
    ensures exists first :: IsLeast(first, keys)
    decreases |keys|
  {
    var x :| x in keys;
    if keys == {x} {
      assert IsLeast(x, keys);
    } else {
      assert keys - {x} != {};
      LeastExists(keys - {x});
      var y :| IsLeast(y, keys - {x});
      LessIsTotal(x, y);
      var first := if Less(x, y) then x else y;
      forall k | k in keys && k != first
        ensures Less(first, k)
      {
        if first == x && k != y {
          LessIsTransitive(x, y, k);
        }
      }
      assert IsLeast(first, keys);
    }
  }

  lemma LeastIsUnique(a: string, b: string, keys: set<string>)
    requires IsLeast(a, keys) && IsLeast(b, keys)
    ensures a == b
  {
    LessIsTotal(a, b);
  }

  function Least(keys: set<string>): (first: string)
    requires keys != {}
    ensures IsLeast(first, keys)
  {
    LeastExists(keys);
    assert forall a, b :: a in keys && IsLeast(a, keys) && b in keys && IsLeast(b, keys) ==> a == b by {
      forall a, b | IsLeast(a, keys) && IsLeast(b, keys)
        ensures a == b
      {
        LeastIsUnique(a, b, keys);
      }
    }
    var first :| first in keys && IsLeast(first, keys);
    first
  }

  function Sorted(keys: set<string>): (r: seq<string>)
    ensures forall k :: k in r <==> k in keys
    decreases |keys|
  {
    if keys == {} then [] else [Least(keys)] + Sorted(keys - {Least(keys)})
  }

  function Pairs(context: Context, keys: seq<string>): seq<(string, string)>
    requires forall k :: k in keys ==> k in context
  {
    if keys == [] then [] else [(keys[0], FoldContextValue(context[keys[0]]))] + Pairs(context, keys[1..])
  }

  function PermissionContextKey(context: Option<Context>): string {
    if context.None? || context.value == map[] then ""
    else "[" + PairsText(Pairs(context.value, Sorted(context.value.Keys)))
  }

  // ------------------------------------------------------------------
  // Equal text, equal context
  // ------------------------------------------------------------------

  lemma HexIsInjective(a: nat, b: nat)
    requires a < 16 && b < 16 && Hex(a) == Hex(b)
    ensures a == b
  {
  }

  /** No escape is a proper prefix of another, and none starts with a quote. */
  lemma EscapeEnds(c: char, d: char, x: string, y: string)
    requires Escape(c) + x == Escape(d) + y
    ensures c == d && x == y
  {
    var s := Escape(c) + x;
    assert s[0] == Escape(c)[0] == Escape(d)[0];
    if |Escape(c)| != 1 {
      assert s[1] == Escape(c)[1] && s[1] == Escape(d)[1];
      if |Escape(c)| == 6 {
        assert s[4] == Escape(c)[4] && s[4] == Escape(d)[4];
        assert s[5] == Escape(c)[5] && s[5] == Escape(d)[5];
        HexIsInjective(c as int / 16, d as int / 16);
        HexIsInjective(c as int % 16, d as int % 16);
        assert c as int == d as int;
      }
    }
    assert c == d;
    assert x == s[|Escape(c)|..] && y == s[|Escape(d)|..];
  }

  lemma QuoteMeansDone(s: string, x: string)
    ensures (Escaped(s) + ['"'] + x)[0] == '"' <==> s == ""
  {
    assert s != "" ==> Escape(s[0])[0] != '"';
  }

  /** The first bare quote ends an escaped string. */
  lemma {:induction false} EscapedEnds(s: string, t: string, x: string, y: string)
    requires Escaped(s) + ['"'] + x == Escaped(t) + ['"'] + y
    ensures s == t && x == y
    decreases |s|
  {
    hide Escape;
    var whole := Escaped(s) + ['"'] + x;
    QuoteMeansDone(s, x);
    QuoteMeansDone(t, y);
    if s == "" {
      assert x == whole[1..] && y == whole[1..];
    } else {
      var u, v := Escaped(s[1..]) + ['"'] + x, Escaped(t[1..]) + ['"'] + y;
      assert whole == Escape(s[0]) + u && whole == Escape(t[0]) + v;
      EscapeEnds(s[0], t[0], u, v);
      EscapedEnds(s[1..], t[1..], x, y);
      assert s == [s[0]] + s[1..] && t == [t[0]] + t[1..];
    }
  }

  lemma QuotedEnds(s: string, t: string, x: string, y: string)
    requires Quoted(s) + x == Quoted(t) + y
    ensures s == t && x == y
  {
    hide Escaped;
    assert (Quoted(s) + x)[1..] == Escaped(s) + ['"'] + x;
    assert (Quoted(t) + y)[1..] == Escaped(t) + ['"'] + y;
    EscapedEnds(s, t, x, y);
  }

  lemma PairEnds(p: (string, string), q: (string, string), x: string, y: string)
    requires PairText(p) + x == PairText(q) + y
    ensures p == q && x == y
  {
    hide Quoted;
    var a, b := Quoted(p.1) + "]" + x, Quoted(q.1) + "]" + y;
    assert (PairText(p) + x)[1..] == Quoted(p.0) + ("," + a);
    assert (PairText(q) + y)[1..] == Quoted(q.0) + ("," + b);
    QuotedEnds(p.0, q.0, "," + a, "," + b);
    assert ("," + a)[1..] == a && ("," + b)[1..] == b;
    assert a == Quoted(p.1) + ("]" + x) && b == Quoted(q.1) + ("]" + y);
    QuotedEnds(p.1, q.1, "]" + x, "]" + y);
    assert ("]" + x)[1..] == x && ("]" + y)[1..] == y;
  }

  lemma {:induction false} PairsAreInjective(ps: seq<(string, string)>, qs: seq<(string, string)>)
    requires PairsText(ps) == PairsText(qs)
    ensures ps == qs
  {
    hide PairText;
    if ps == [] || qs == [] {
      StartsWithPair(ps);
      StartsWithPair(qs);
    } else {
      var x := (if |ps| == 1 then "" else ",") + PairsText(ps[1..]);
      var y := (if |qs| == 1 then "" else ",") + PairsText(qs[1..]);
      assert PairsText(ps) == PairText(ps[0]) + x && PairsText(qs) == PairText(qs[0]) + y;
      PairEnds(ps[0], qs[0], x, y);
      StartsWithPair(ps[1..]);
      StartsWithPair(qs[1..]);
      assert |ps| == 1 <==> x[0] == ']';
      assert |qs| == 1 <==> y[0] == ']';
      if |ps| != 1 {
        assert x[1..] == PairsText(ps[1..]) && y[1..] == PairsText(qs[1..]);
        PairsAreInjective(ps[1..], qs[1..]);
      }
      assert ps == [ps[0]] + ps[1..] && qs == [qs[0]] + qs[1..];
    }
  }

  lemma StartsWithPair(ps: seq<(string, string)>)
    ensures 0 < |PairsText(ps)|
    ensures PairsText(ps)[0] == if ps == [] then ']' else '['
  {
  }

  /** A context with its values folded; an absent one is empty. */
  function Folded(context: Option<Context>): Context {
    if context.None? then map[] else map k | k in context.value :: FoldContextValue(context.value[k])
  }

  lemma {:induction false} PairsKeepKeys(context: Context, keys: seq<string>)
    requires forall k :: k in keys ==> k in context
    ensures |Pairs(context, keys)| == |keys|
    ensures forall i :: 0 <= i < |keys| ==> Pairs(context, keys)[i] == (keys[i], FoldContextValue(context[keys[i]]))
  {
    if keys != [] {
      PairsKeepKeys(context, keys[1..]);
      forall i | 0 <= i < |keys|
        ensures Pairs(context, keys)[i] == (keys[i], FoldContextValue(context[keys[i]]))
      {
        if i != 0 {
          assert Pairs(context, keys)[i] == Pairs(context, keys[1..])[i - 1];
        }
      }
    }
  }

  lemma SamePairsSameContext(a: Context, b: Context)
    requires Pairs(a, Sorted(a.Keys)) == Pairs(b, Sorted(b.Keys))
    ensures Folded(Some(a)) == Folded(Some(b))
  {
    var ka, kb := Sorted(a.Keys), Sorted(b.Keys);
    PairsKeepKeys(a, ka);
    PairsKeepKeys(b, kb);
    assert forall i :: 0 <= i < |ka| ==> Pairs(a, ka)[i].0 == ka[i] && Pairs(b, kb)[i].0 == kb[i];
    assert ka == kb;
    forall k | k in a
      ensures k in b && FoldContextValue(a[k]) == FoldContextValue(b[k])
    {
      assert k in ka;
      var i :| 0 <= i < |ka| && ka[i] == k;
      assert Pairs(a, ka)[i] == Pairs(b, kb)[i];
    }
    forall k | k in b
      ensures k in a
    {
      assert k in kb;
    }
  }

  lemma {:induction false} SameFoldSamePairs(a: Context, b: Context, keys: seq<string>)
    requires Folded(Some(a)) == Folded(Some(b)) && forall k :: k in keys ==> k in a && k in b
    ensures Pairs(a, keys) == Pairs(b, keys)
  {
    if keys != [] {
      SameFoldSamePairs(a, b, keys[1..]);
      assert Folded(Some(a))[keys[0]] == Folded(Some(b))[keys[0]];
    }
  }

  function Entries(context: Option<Context>): Context {
    if context.None? then map[] else context.value
  }

  /** The same keys, and under each of them values of one length with the same characters up to ASCII case. */
  predicate SameContext(a: Option<Context>, b: Option<Context>) {
    Entries(a).Keys == Entries(b).Keys && forall k :: k in Entries(a) ==> SameText(Entries(a)[k], Entries(b)[k])
  }

  lemma FoldedIsSame(a: Option<Context>, b: Option<Context>)
    ensures Folded(a) == Folded(b) <==> SameContext(a, b)
  {
    hide FoldContextValue, SameText;
    var x, y := Entries(a), Entries(b);
    forall k | k in x && k in y
      ensures FoldContextValue(x[k]) == FoldContextValue(y[k]) <==> SameText(x[k], y[k])
    {
      FoldIdentifiesCase(x[k], y[k]);
    }
    assert Folded(a).Keys == x.Keys && Folded(b).Keys == y.Keys;
    if Folded(a) == Folded(b) {
      forall k | k in x
        ensures SameText(x[k], y[k])
      {
        assert Folded(a)[k] == Folded(b)[k];
      }
    }
  }

  /** Two contexts have one key exactly when they are equal up to ASCII case of the values. */
  lemma ContextKeyIsCanonical(a: Option<Context>, b: Option<Context>)
    ensures PermissionContextKey(a) == PermissionContextKey(b) <==> SameContext(a, b)
  {
    hide PermissionContextKey, Folded, SameContext;
    FoldedIsSame(a, b);
    FoldedKey(a, b);
  }

  lemma FoldedKey(a: Option<Context>, b: Option<Context>)
    ensures PermissionContextKey(a) == PermissionContextKey(b) <==> Folded(a) == Folded(b)
  {
    hide PairsText, Sorted, FoldContextValue;
    if a.Some? && b.Some? && a.value != map[] && b.value != map[] {
      var pa, pb := Pairs(a.value, Sorted(a.value.Keys)), Pairs(b.value, Sorted(b.value.Keys));
      if PermissionContextKey(a) == PermissionContextKey(b) {
        assert PairsText(pa) == PermissionContextKey(a)[1..] && PairsText(pb) == PermissionContextKey(b)[1..];
        PairsAreInjective(pa, pb);
        SamePairsSameContext(a.value, b.value);
      }
      if Folded(a) == Folded(b) {
        assert a.value.Keys == Folded(a).Keys && b.value.Keys == Folded(b).Keys;
        SameFoldSamePairs(a.value, b.value, Sorted(a.value.Keys));
      }
    } else {
      EmptyFolded(a);
      EmptyFolded(b);
    }
  }

  lemma EmptyFolded(a: Option<Context>)
    ensures Folded(a) == map[] <==> a.None? || a.value == map[]
    ensures PermissionContextKey(a) == "" <==> a.None? || a.value == map[]
  {
    if a.Some? && a.value != map[] {
      assert a.value.Keys != {};
      var k :| k in a.value;
      assert k in Folded(a);
    }
  }

  // ------------------------------------------------------------------
  // The whole key
  // ------------------------------------------------------------------

  datatype Check = Check(userId: string, groupId: string, permission: string, context: Option<Context>)

  function Key(check: Check, inherit: bool): string {
    (if inherit then "i" else "d") + FramedAll([check.userId, check.groupId, check.permission, PermissionContextKey(check.context)])
  }

  /** Checks the server answers alike: all equal, contexts up to ASCII case of their values. */
  predicate SameCheck(a: Check, b: Check) {
    a.userId == b.userId && a.groupId == b.groupId && a.permission == b.permission && SameContext(a.context, b.context)
  }

  /** One key stands for exactly one question. */
  lemma KeysAreQuestions(a: Check, b: Check, i: bool, j: bool)
    ensures Key(a, i) == Key(b, j) <==> SameCheck(a, b) && i == j
  {
    hide FramedAll, PermissionContextKey, SameContext;
    ContextKeyIsCanonical(a.context, b.context);
    if Key(a, i) == Key(b, j) {
      var ps := [a.userId, a.groupId, a.permission, PermissionContextKey(a.context)];
      var qs := [b.userId, b.groupId, b.permission, PermissionContextKey(b.context)];
      assert Key(a, i)[0] == Key(b, j)[0];
      assert FramedAll(ps) == Key(a, i)[1..] && FramedAll(qs) == Key(b, j)[1..];
      FramesAreInjective(ps, qs);
      assert ps[0] == qs[0] && ps[1] == qs[1] && ps[2] == qs[2] && ps[3] == qs[3];
    }
  }
}
