/** `${KEY}` expansion of scenario commands: one ReplaceAll per variable, in whatever order
    the merged map is ranged over. */
module ExpandVars {
  import opened Strings

  /** strings.ReplaceAll for a non-empty pattern. */
  function ReplaceAll(s: string, pat: string, v: string): string
    requires pat != []
    decreases |s|
  {
    if |s| < |pat| then s
    else if pat <= s then v + ReplaceAll(s[|pat|..], pat, v)
    else [s[0]] + ReplaceAll(s[1..], pat, v)
  }

  function Ref(k: string): string { "${" + k + "}" }

  /** The effect of the replacement loop for one iteration order. */
  function ExpandIn(cmd: string, vars: map<string, string>, order: seq<string>): string
    requires forall k :: k in order ==> k in vars
  {
    if order == [] then cmd
    else ReplaceAll(ExpandIn(cmd, vars, order[..|order| - 1]), Ref(order[|order| - 1]), vars[order[|order| - 1]])
  }

  method Fill(base: map<string, string>, extra: map<string, string>) returns (m: map<string, string>)
    ensures m == base + extra
  {
    m := base;
    var todo := extra.Keys;
    while todo != {}
      invariant todo <= extra.Keys
      invariant forall k :: k in m <==> k in base || (k in extra && k !in todo)
      invariant forall k :: k in m ==> m[k] == if k in extra && k !in todo then extra[k] else base[k]
      decreases todo
    {
      var k :| k in todo;
      m := m[k := extra[k]];
      todo := todo - {k};
    }
  }

  method Expand(vars: map<string, string>, cmd: string, overrides: map<string, string>) returns (r: string)
    ensures exists order :: ListsKeys(order, vars + overrides) && r == ExpandIn(cmd, vars + overrides, order)
    ensures forall ps :: Template(ps) && Untangled(vars + overrides) && cmd == Render(ps) ==> r == Subst(ps, vars + overrides)
  {
    var merged := Fill(map[], vars);
    merged := Fill(merged, overrides);
    assert merged == vars + overrides;
    var order := AnyOrder(merged.Keys);
    r := cmd;
    for i := 0 to |order|
      invariant r == ExpandIn(cmd, merged, order[..i])
    {
      assert order[..i + 1][..i] == order[..i];
      r := ReplaceAll(r, Ref(order[i]), merged[order[i]]);
    }
    assert order[..|order|] == order;
    assert ListsKeys(order, merged);
    forall ps | Template(ps) && Untangled(merged) && cmd == Render(ps)
      ensures r == Subst(ps, merged)
    {
      OrderIrrelevant(merged);
    }
  }

  // ----- templates

  /** A command as its author means it: plain text and variable references. */
  datatype Piece = Text(t: string) | Var(k: string)

  function PieceText(p: Piece): string { match p case Text(t) => t case Var(k) => Ref(k) }

  function Render(ps: seq<Piece>): string {
    if ps == [] then "" else PieceText(ps[0]) + Render(ps[1..])
  }

  predicate SafePiece(p: Piece) {
    match p
    case Text(t) => '$' !in t
    case Var(k) => SafeKey(k)
  }

  predicate SafeKey(k: string) { '$' !in k && '}' !in k }

  predicate Template(ps: seq<Piece>) { forall i :: 0 <= i < |ps| ==> SafePiece(ps[i]) }

  predicate SafeVars(m: map<string, string>) { forall k :: k in m ==> SafeKey(k) && '$' !in m[k] }

  /** Simultaneous substitution: every reference to a known variable becomes its value. */
  function Subst(ps: seq<Piece>, m: map<string, string>): string {
    if ps == [] then ""
    else (if ps[0].Var? && ps[0].k in m then m[ps[0].k] else PieceText(ps[0])) + Subst(ps[1..], m)
  }

  /** One variable's references turned into text. */
  function Resolve(ps: seq<Piece>, k: string, v: string): seq<Piece> {
    seq(|ps|, i requires 0 <= i < |ps| => if ps[i] == Var(k) then Text(v) else ps[i])
  }

  lemma SkipChar(c: char, s: string, pat: string, v: string)
    requires pat != [] && !(pat <= [c] + s)
    ensures ReplaceAll([c] + s, pat, v) == [c] + ReplaceAll(s, pat, v)
  {
    assert ([c] + s)[0] == c && ([c] + s)[1..] == s;
  }

  /** No occurrence of `pat` starts in `t`, whatever follows `t`. */
  predicate Inert(t: string, pat: string) {
    forall i :: 0 <= i < |t| ==> !(pat <= t[i..]) && !(t[i..] <= pat)
  }

  lemma {:induction false} SkipText(t: string, rest: string, pat: string, v: string)
    requires pat != [] && Inert(t, pat)
    ensures ReplaceAll(t + rest, pat, v) == t + ReplaceAll(rest, pat, v)
  {
    if t == [] {
      assert t + rest == rest;
    } else {
      InertTail(t, pat);
      SkipText(t[1..], rest, pat, v);
      SkipChar(t[0], t[1..] + rest, pat, v);
      HeadTail(t, rest);
      HeadTail(t, ReplaceAll(rest, pat, v));
    }
  }

  lemma HeadTail(t: string, rest: string)
    requires t != []
    ensures [t[0]] + (t[1..] + rest) == t + rest
  {
  }

  lemma InertTail(t: string, pat: string)
    requires t != [] && Inert(t, pat)
    ensures Inert(t[1..], pat) && forall rest :: !(pat <= [t[0]] + (t[1..] + rest))
  {
    var u := t[1..];
    forall i | 0 <= i < |u|
      ensures !(pat <= u[i..]) && !(u[i..] <= pat)
    {
      assert u[i..] == t[i + 1..];
    }
    assert t[0..] == t;
    forall rest
      ensures !(pat <= [t[0]] + (u + rest))
    {
      assert [t[0]] + (u + rest) == t + rest;
      if pat <= t + rest { PrefixOfTwo(t, rest, pat); }
    }
  }

  lemma PrefixOfTwo(t: string, rest: string, pat: string)
    requires pat <= t + rest
    ensures pat <= t || t <= pat
  {
    if |pat| <= |t| {
      assert pat == (t + rest)[..|pat|] == t[..|pat|];
    } else {
      assert t == (t + rest)[..|t|] == pat[..|t|];
    }
  }

  lemma PlainIsInert(t: string, pat: string)
    requires pat != [] && pat[0] !in t
    ensures Inert(t, pat)
  {
    forall i | 0 <= i < |t|
      ensures !(pat <= t[i..]) && !(t[i..] <= pat)
    {
      assert t[i..][0] == t[i];
    }
  }

  lemma HitRef(k: string, rest: string, v: string)
    ensures ReplaceAll(Ref(k) + rest, Ref(k), v) == v + ReplaceAll(rest, Ref(k), v)
  {
    assert (Ref(k) + rest)[|Ref(k)|..] == rest;
  }

  /** The closing brace keeps one reference from being the start of another. */
  lemma RefPrefix(j: string, k: string, rest: string)
    requires '}' !in j && '}' !in k
    ensures Ref(k) <= Ref(j) + rest ==> j == k
  {
    var a, b := Ref(k), Ref(j) + rest;
    assert forall i :: 0 <= i < |k| ==> a[2 + i] == k[i];
    assert forall i :: 0 <= i < |j| ==> b[2 + i] == j[i];
    assert a[2 + |k|] == b[2 + |j|] == '}';
    if a <= b {
      assert forall i :: 0 <= i < |a| ==> a[i] == b[i];
      assert |k| == |j|;
      assert k == j;
    }
  }

  lemma MissRef(j: string, k: string, rest: string, v: string)
    requires j != k && SafeKey(j) && SafeKey(k)
    ensures ReplaceAll(Ref(j) + rest, Ref(k), v) == Ref(j) + ReplaceAll(rest, Ref(k), v)
  {
    RefPrefix(j, k, rest);
    var s, tail := Ref(j) + rest, "{" + j + "}";
    assert Ref(j) == "$" + tail && Ref(k)[0] == '$';
    assert s[0] == '$' && s[1..] == tail + rest;
    PlainIsInert(tail, Ref(k));
    SkipText(tail, rest, Ref(k), v);
    if |s| < |Ref(k)| { assert ReplaceAll(rest, Ref(k), v) == rest; }
    assert s == "$" + (tail + rest);
  }

  /** Pieces in which replacing `${k}` meets only the references to k. */
  predicate Clear(ps: seq<Piece>, k: string) {
    forall i :: 0 <= i < |ps| ==> match ps[i] case Text(t) => Inert(t, Ref(k)) case Var(j) => SafeKey(j)
  }

  /** There, ReplaceAll resolves exactly the references to its variable. */
  lemma {:induction false} ReplaceResolves(ps: seq<Piece>, k: string, v: string)
    requires Clear(ps, k) && SafeKey(k)
    ensures ReplaceAll(Render(ps), Ref(k), v) == Render(Resolve(ps, k, v))
  {
    if ps != [] {
      var rest := Render(ps[1..]);
      ReplaceResolves(ps[1..], k, v);
      assert Resolve(ps, k, v)[1..] == Resolve(ps[1..], k, v);
      match ps[0]
      case Text(t) => SkipText(t, rest, Ref(k), v);
      case Var(j) => if j == k { HitRef(k, rest, v); } else { MissRef(j, k, rest, v); }
    }
  }

  /** The pieces after the variables in `done` have been resolved. */
  function Resolved(ps: seq<Piece>, m: map<string, string>, done: seq<string>): seq<Piece>
    requires forall k :: k in done ==> k in m
  {
    seq(|ps|, i requires 0 <= i < |ps| => if ps[i].Var? && ps[i].k in done then Text(m[ps[i].k]) else ps[i])
  }

  /** Keys are safe, and no value can make or complete a reference to another variable,
      except one that stands for itself. */
  predicate Untangled(m: map<string, string>) {
    && (forall k :: k in m ==> SafeKey(k))
    && (forall a, b :: a in m && b in m && a != b && m[b] != Ref(b) ==> Inert(m[a], Ref(b)))
  }

  lemma ResolveOneMore(ps: seq<Piece>, m: map<string, string>, done: seq<string>, k: string)
    requires Template(ps) && Untangled(m) && k in m && k !in done && forall x :: x in done ==> x in m
    ensures m[k] != Ref(k) ==> Clear(Resolved(ps, m, done), k)
    ensures Resolve(Resolved(ps, m, done), k, m[k]) == Resolved(ps, m, done + [k])
  {
    var mid, next := Resolved(ps, m, done), Resolved(ps, m, done + [k]);
    forall i | 0 <= i < |ps|
      ensures Resolve(mid, k, m[k])[i] == next[i]
      ensures m[k] != Ref(k) ==> match mid[i] case Text(t) => Inert(t, Ref(k)) case Var(j) => SafeKey(j)
    {
      assert SafePiece(ps[i]);
      if ps[i].Var? {
        assert ps[i].k in done + [k] <==> ps[i].k in done || ps[i].k == k;
      } else {
        PlainIsInert(ps[i].t, Ref(k));
      }
    }
  }

  /** Replacing a pattern by itself changes nothing. */
  lemma {:induction false} ReplaceBySelf(s: string, pat: string)
    requires pat != []
    ensures ReplaceAll(s, pat, pat) == s
    decreases |s|
  {
    if |s| >= |pat| {
      if pat <= s {
        ReplaceBySelf(s[|pat|..], pat);
        assert s == pat + s[|pat|..];
      } else {
        ReplaceBySelf(s[1..], pat);
        assert s == [s[0]] + s[1..];
      }
    }
  }

  lemma {:induction false} ResolveSelf(ps: seq<Piece>, k: string)
    ensures Render(Resolve(ps, k, Ref(k))) == Render(ps)
  {
    if ps != [] {
      ResolveSelf(ps[1..], k);
      assert Resolve(ps, k, Ref(k))[1..] == Resolve(ps[1..], k, Ref(k));
    }
  }

  lemma {:induction false} ExpandResolves(ps: seq<Piece>, m: map<string, string>, order: seq<string>)
    requires Template(ps) && Untangled(m) && Distinct(order) && forall k :: k in order ==> k in m
    ensures ExpandIn(Render(ps), m, order) == Render(Resolved(ps, m, order))
  {
    if order == [] {
      assert Resolved(ps, m, order) == ps;
    } else {
      var n := |order| - 1;
      var mid, k := Resolved(ps, m, order[..n]), order[n];
      ExpandResolves(ps, m, order[..n]);
      ResolveOneMore(ps, m, order[..n], k);
      assert order == order[..n] + [k];
      if m[k] == Ref(k) {
        ReplaceBySelf(Render(mid), Ref(k));
        ResolveSelf(mid, k);
      } else {
        ReplaceResolves(mid, k, m[k]);
      }
    }
  }

  lemma {:induction false} ResolvedIsSubst(ps: seq<Piece>, m: map<string, string>, order: seq<string>)
    requires forall k :: k in order <==> k in m
    ensures Render(Resolved(ps, m, order)) == Subst(ps, m)
  {
    if ps != [] {
      ResolvedIsSubst(ps[1..], m, order);
      assert Resolved(ps, m, order)[1..] == Resolved(ps[1..], m, order);
    }
  }

  /** Every template expands to its simultaneous substitution in every iteration order. */
  ghost predicate OrderFree(m: map<string, string>) {
    forall ps, order :: Template(ps) && ListsKeys(order, m) ==> ExpandIn(Render(ps), m, order) == Subst(ps, m)
  }

  /** With safe keys, whatever the iteration order expanding any template is simultaneous
      substitution, if and only if no value holds, or ends in the beginning of, a reference
      to another variable that does not stand for itself. */
  lemma OrderIrrelevant(m: map<string, string>)
    requires forall k :: k in m ==> SafeKey(k)
    ensures OrderFree(m) <==> Untangled(m)
  {
    if Untangled(m) {
      forall ps, order | Template(ps) && ListsKeys(order, m)
        ensures ExpandIn(Render(ps), m, order) == Subst(ps, m)
      {
        ExpandResolves(ps, m, order);
        ResolvedIsSubst(ps, m, order);
      }
    } else {
      var a, b :| a in m && b in m && a != b && m[b] != Ref(b) && !Inert(m[a], Ref(b));
      OrderShows(m, a, b);
    }
  }

  /** Values without `$` are the plain case. */
  lemma PlainValues(m: map<string, string>)
    requires SafeVars(m)
    ensures Untangled(m)
  {
    forall a, b | a in m && b in m && a != b && m[b] != Ref(b)
      ensures Inert(m[a], Ref(b))
    {
      PlainIsInert(m[a], Ref(b));
    }
  }

  // ----- the other half: a tangled map shows its order

  function Count(s: string, pat: string): nat
    requires pat != []
    decreases |s|
  {
    if |s| < |pat| then 0
    else if pat <= s then 1 + Count(s[|pat|..], pat)
    else Count(s[1..], pat)
  }

  lemma OneMore(k: nat, d: int)
    ensures (1 + k) * d == d + k * d
  {
  }

  lemma {:induction false} ReplaceLength(s: string, pat: string, v: string)
    requires pat != []
    ensures |ReplaceAll(s, pat, v)| == |s| + Count(s, pat) * (|v| - |pat|)
    decreases |s|
  {
    if |s| >= |pat| {
      if pat <= s {
        ReplaceLength(s[|pat|..], pat, v);
        OneMore(Count(s[|pat|..], pat), |v| - |pat|);
      } else {
        ReplaceLength(s[1..], pat, v);
      }
    }
  }

  /** An occurrence anywhere makes ReplaceAll change the text, unless it is by itself. */
  lemma {:induction false} ReplaceChanges(s: string, pat: string, v: string, i: nat)
    requires pat != [] && v != pat && i <= |s| && pat <= s[i..]
    ensures ReplaceAll(s, pat, v) != s && Count(s, pat) > 0
    decreases |s|
  {
    assert s[0..] == s;
    ReplaceLength(s, pat, v);
    if pat <= s {
      var r := ReplaceAll(s[|pat|..], pat, v);
      if |v| == |pat| {
        assert (v + r)[..|pat|] == v && s[..|pat|] == pat;
      } else {
        ReplaceLength(s[|pat|..], pat, v);
        NonZero(Count(s, pat), |v| - |pat|);
      }
    } else {
      assert s[1..][i - 1..] == s[i..];
      ReplaceChanges(s[1..], pat, v, i - 1);
      assert ReplaceAll(s, pat, v)[1..] == ReplaceAll(s[1..], pat, v);
    }
  }

  lemma NonZero(n: nat, d: int)
    requires n > 0 && d != 0
    ensures n * d != 0
  {
  }

  /** Replacements of variables that a template does not mention change nothing. */
  lemma {:induction false} Unmentioned(a: string, rest: string, m: map<string, string>, order: seq<string>)
    requires SafeKey(a) && '$' !in rest && a !in order && forall k :: k in order ==> k in m && SafeKey(k)
    ensures ExpandIn(Ref(a) + rest, m, order) == Ref(a) + rest
  {
    if order != [] {
      var n := |order| - 1;
      Unmentioned(a, rest, m, order[..n]);
      MissRef(a, order[n], rest, m[order[n]]);
      NothingToReplace(rest, order[n], m[order[n]]);
    }
  }

  lemma NothingToReplace(rest: string, k: string, v: string)
    requires '$' !in rest
    ensures ReplaceAll(rest, Ref(k), v) == rest
  {
    PlainIsInert(rest, Ref(k));
    SkipText(rest, "", Ref(k), v);
    assert rest + "" == rest;
  }

  lemma {:induction false} ListOthers(m: map<string, string>, keys: set<string>) returns (order: seq<string>)
    requires keys <= m.Keys
    ensures Distinct(order) && forall k :: k in order <==> k in keys
    decreases keys
  {
    if keys == {} { return []; }
    var k :| k in keys;
    order := ListOthers(m, keys - {k});
    order := order + [k];
  }

  /** With b last and a just before it, `${a}` followed by what completes the reference. */
  lemma ExpandLastTwo(m: map<string, string>, a: string, b: string, others: seq<string>, rest: string)
    requires a in m && b in m && a !in others && SafeKey(a) && '$' !in rest
    requires forall k :: k in others ==> k in m && SafeKey(k)
    ensures (forall k :: k in others + [a, b] ==> k in m)
    ensures ExpandIn(Ref(a) + rest, m, others + [a, b]) == ReplaceAll(m[a] + rest, Ref(b), m[b])
  {
    var one, two := others + [a], others + [a, b];
    assert two[..|two| - 1] == one && one[..|one| - 1] == others;
    Unmentioned(a, rest, m, others);
    HitRef(a, rest, m[a]);
    NothingToReplace(rest, a, m[a]);
  }

  /** A value that holds or begins a reference to another variable: some template and some
      order give something else than the substitution. */
  lemma OrderShows(m: map<string, string>, a: string, b: string)
    requires (forall k :: k in m ==> SafeKey(k)) && a in m && b in m && a != b && m[b] != Ref(b) && !Inert(m[a], Ref(b))
    ensures !OrderFree(m)
  {
    var i :| 0 <= i < |m[a]| && (Ref(b) <= m[a][i..] || m[a][i..] <= Ref(b));
    var rest := Completion(m[a], i, b);
    var others := ListOthers(m, m.Keys - {a, b});
    ExpandLastTwo(m, a, b, others, rest);
    RenderTwo(m, a, rest);
    ReplaceChanges(m[a] + rest, Ref(b), m[b], i);
    OrderOfTwo(m, a, b, others);
    Counterexample(m, [Var(a), Text(rest)], others + [a, b]);
  }

  /** Text that turns the end of `s` into a reference to b. */
  lemma Completion(s: string, i: nat, b: string) returns (rest: string)
    requires SafeKey(b) && i < |s| && (Ref(b) <= s[i..] || s[i..] <= Ref(b))
    ensures '$' !in rest && i <= |s + rest| && Ref(b) <= (s + rest)[i..]
  {
    if Ref(b) <= s[i..] {
      rest := "";
      assert s + rest == s;
    } else {
      rest := Ref(b)[|s| - i..];
      assert forall x :: 0 < x < |Ref(b)| ==> Ref(b)[x] != '$';
      assert (s + rest)[i..] == s[i..] + rest == Ref(b);
    }
  }

  lemma OrderOfTwo(m: map<string, string>, a: string, b: string, others: seq<string>)
    requires a in m && b in m && a != b && Distinct(others) && forall k :: k in others <==> k in m.Keys - {a, b}
    ensures ListsKeys(others + [a, b], m)
  {
    var order := others + [a, b];
    forall i, j | 0 <= i < j < |order|
      ensures order[i] != order[j]
    {
      if i < |others| { assert order[i] in others; }
    }
    forall k
      ensures k in order <==> k in m
    {
      assert k in order <==> k in others || k == a || k == b;
    }
  }

  lemma Counterexample(m: map<string, string>, ps: seq<Piece>, order: seq<string>)
    requires Template(ps) && ListsKeys(order, m) && ExpandIn(Render(ps), m, order) != Subst(ps, m)
    ensures !OrderFree(m)
  {
  }

  lemma RenderTwo(m: map<string, string>, a: string, rest: string)
    requires a in m
    ensures Render([Var(a), Text(rest)]) == Ref(a) + rest && Subst([Var(a), Text(rest)], m) == m[a] + rest
  {
    var ps, last := [Var(a), Text(rest)], [Text(rest)];
    assert ps[1..] == last && last[1..] == [];
    assert Render(last) == rest + "" == rest && Subst(last, m) == rest + "" == rest;
    assert Render(ps) == Ref(a) + Render(last) && Subst(ps, m) == m[a] + Subst(last, m);
  }
}
