/** What becomes of an escaped `$${`: where it goes in each phase, and when a string that has one resolves. */
module InterpolateEscape {
  import opened Lifecycle
  import opened Interpolate
  import opened InterpolateResolve

  // ---------------------------------------------------------------- the text before a position

  /** No leaf that starts at `from` or later has position a strictly inside. */
  ghost predicate Outside(s: string, from: nat, a: nat) {
    forall l: nat, b: nat :: from <= l < a && IsLeaf(s, l, b) ==> b <= a
  }

  /** What the text from position i up to position a is rewritten to. */
  ghost function Ahead(s: string, i: nat, a: nat, scheme: string, expand: Expander): string
    requires i <= a <= |s|
    decreases a - i
  {
    if i == a then ""
    else
      match LeafEnd(s, i)
      case None => [s[i]] + Ahead(s, i + 1, a, scheme, expand)
      case Some(b) =>
        if b > a then ""
        else
          var v := Value(s, Token(i, b), scheme, expand);
          (if v.Some? then v.value else "") + Ahead(s, b, a, scheme, expand)
  }

  lemma Regroup(a: string, b: string, c: string)
    ensures a + (b + c) == (a + b) + c
  {
  }

  lemma {:induction false} AheadSplits(s: string, i: nat, a: nat, scheme: string, expand: Expander)
    requires i <= a <= |s| && Outside(s, i, a)
    ensures Substituted(s, i, scheme, expand) == Ahead(s, i, a, scheme, expand) + Substituted(s, a, scheme, expand)
    decreases a - i
  {
    hide Value, HasOpen, IsOpen;
    if i < a {
      var next := LeafEnd(s, i);
      if next.None? {
        AheadSplits(s, i + 1, a, scheme, expand);
        Regroup([s[i]], Ahead(s, i + 1, a, scheme, expand), Substituted(s, a, scheme, expand));
      } else {
        AheadSplits(s, next.value, a, scheme, expand);
        var v := Value(s, Token(i, next.value), scheme, expand);
        Regroup(if v.Some? then v.value else "", Ahead(s, next.value, a, scheme, expand), Substituted(s, a, scheme, expand));
      }
    }
  }

  lemma {:induction false} AheadJoins(s: string, i: nat, r: nat, a: nat, scheme: string, expand: Expander)
    requires i <= r <= a <= |s| && Outside(s, i, r)
    ensures Ahead(s, i, a, scheme, expand) == Ahead(s, i, r, scheme, expand) + Ahead(s, r, a, scheme, expand)
    decreases r - i
  {
    hide Value, HasOpen, IsOpen;
    if i < r {
      var next := LeafEnd(s, i);
      if next.None? {
        AheadJoins(s, i + 1, r, a, scheme, expand);
        Regroup([s[i]], Ahead(s, i + 1, r, scheme, expand), Ahead(s, r, a, scheme, expand));
      } else {
        AheadJoins(s, next.value, r, a, scheme, expand);
        var v := Value(s, Token(i, next.value), scheme, expand);
        Regroup(if v.Some? then v.value else "", Ahead(s, next.value, r, scheme, expand), Ahead(s, r, a, scheme, expand));
      }
    }
  }

  lemma {:induction false} AheadPlain(s: string, i: nat, a: nat, scheme: string, expand: Expander)
    requires i <= a <= |s| && NoLeafStarts(s, i, a)
    ensures Ahead(s, i, a, scheme, expand) == s[i..a]
    decreases a - i
  {
    if i < a {
      AheadPlain(s, i + 1, a, scheme, expand);
      assert LeafEnd(s, i).None?;
      assert s[i..a] == [s[i]] + s[i + 1..a];
    }
  }

  /** Openings, escaped or not, lie in no leaf but at its start; neither does the run of dollars before one. */
  lemma OpeningIsOutside(s: string, a: nat, r: nat)
    requires OpensAt(s, a) && r <= a && forall q :: r <= q < a ==> s[q] == '$'
    ensures Outside(s, 0, r)
  {
    forall l: nat, b: nat | l < r && IsLeaf(s, l, b)
      ensures b <= r
    {
      assert OpensAt(s, l);
      assert b > r ==> a + 2 <= b - 1;
      LeafHoldsNoOpening(s, l, b, a);
    }
  }

  lemma LeafHoldsNoOpening(s: string, l: nat, b: nat, a: nat)
    requires IsLeaf(s, l, b)
    ensures OpensAt(s, a) ==> !(l + 2 <= a && a + 2 <= b - 1)
  {
  }

  // ---------------------------------------------------------------- dollars

  lemma {:induction false} DollarsOfPrefix(p: string, q: string, i: nat)
    requires i <= |p|
    ensures DollarsBefore(p + q, i) == DollarsBefore(p, i)
    decreases i
  {
    if i > 0 {
      DollarsOfPrefix(p, q, i - 1);
    }
  }

  function Trailing(t: string): nat {
    DollarsBefore(t, |t|)
  }

  lemma {:induction false} TrailingAppend(p: string, d: string)
    requires forall k :: 0 <= k < |d| ==> d[k] == '$'
    ensures Trailing(p + d) == Trailing(p) + |d|
    decreases |d|
  {
    if d == "" {
      assert p + d == p;
    } else {
      var init := d[..|d| - 1];
      TrailingAppend(p, init);
      assert p + d == (p + init) + "$";
      DollarsOfPrefix(p + init, "$", |p + init|);
    }
  }

  lemma {:induction false} RunOfDollars(s: string, a: nat)
    requires a <= |s|
    ensures DollarsBefore(s, a) <= a
    ensures forall q :: a - DollarsBefore(s, a) <= q < a ==> s[q] == '$'
    ensures a > DollarsBefore(s, a) ==> s[a - DollarsBefore(s, a) - 1] != '$'
    decreases a
  {
    if a > 0 && s[a - 1] == '$' {
      RunOfDollars(s, a - 1);
    }
  }

  // ---------------------------------------------------------------- an escaped opening in the first phase

  ghost predicate Escaped(s: string, a: nat) {
    OpensAt(s, a) && DollarsBefore(s, a) % 2 == 1
  }

  /** Where the run of dollars before position a begins. */
  function RunStart(s: string, a: nat): nat
    requires a <= |s|
  {
    if a > 0 && s[a - 1] == '$' then RunStart(s, a - 1) else a
  }

  lemma {:induction false} RunStartExact(s: string, a: nat)
    requires a <= |s|
    ensures RunStart(s, a) + DollarsBefore(s, a) == a
  {
    if a > 0 && s[a - 1] == '$' {
      RunStartExact(s, a - 1);
    }
  }

  lemma RunStartBelow(s: string, a: nat)
    requires a <= |s|
    ensures RunStart(s, a) <= a
  {
    RunStartExact(s, a);
  }

  /** The dollars the rewritten text brings directly before the dollars that stand before position a. */
  ghost function Spliced(s: string, a: nat, scheme: string, expand: Expander): nat
    requires a <= |s|
  {
    RunStartBelow(s, a);
    Trailing(Ahead(s, 0, RunStart(s, a), scheme, expand))
  }

  /** Where position a goes when the text before it is rewritten. */
  ghost function Image(s: string, a: nat, scheme: string, expand: Expander): nat
    requires a <= |s|
  {
    |Ahead(s, 0, a, scheme, expand)|
  }

  lemma NoLeafInRun(s: string, r: nat, a: nat)
    requires OpensAt(s, a) && r <= a && forall q :: r <= q < a ==> s[q] == '$'
    ensures NoLeafStarts(s, r, a)
  {
    forall q: nat, b: nat | r <= q < a
      ensures !IsLeaf(s, q, b)
    {
      assert s[q + 1] == '$';
    }
  }

  lemma TrailingOfAhead(s: string, a: nat, scheme: string, expand: Expander)
    requires OpensAt(s, a)
    ensures Trailing(Ahead(s, 0, a, scheme, expand)) == Spliced(s, a, scheme, expand) + DollarsBefore(s, a)
  {
    var r := RunStart(s, a);
    RunOfDollars(s, a);
    RunStartExact(s, a);
    OpeningIsOutside(s, a, r);
    NoLeafInRun(s, r, a);
    AheadJoins(s, 0, r, a, scheme, expand);
    AheadPlain(s, r, a, scheme, expand);
    TrailingAppend(Ahead(s, 0, r, scheme, expand), s[r..a]);
  }

  /** Only an expansion that ends where the dollars begin can bring any. */
  lemma OnlyExpansionsSplice(s: string, a: nat, scheme: string, expand: Expander)
    requires OpensAt(s, a) && Spliced(s, a, scheme, expand) > 0
    ensures exists l: nat :: IsLeaf(s, l, RunStart(s, a)) && Matches(scheme, Body(s, Token(l, RunStart(s, a))))
  {
    var r := RunStart(s, a);
    RunOfDollars(s, a);
    RunStartExact(s, a);
    OpeningIsOutside(s, a, r);
    if r > 0 {
      if LeafEndsAt(s, r) {
        var l: nat :| IsLeaf(s, l, r);
        LeafBefore(s, l, r, scheme, expand);
      } else {
        PlainBefore(s, r, scheme, expand);
      }
    }
  }

  lemma TrailingNone(t: string, c: char)
    requires c != '$'
    ensures Trailing(t + [c]) == 0
  {
  }

  /** A leaf of another scheme is copied. */
  lemma LeafCopied(s: string, l: nat, r: nat, scheme: string, expand: Expander)
    requires IsLeaf(s, l, r) && !Matches(scheme, Body(s, Token(l, r)))
    ensures Ahead(s, l, r, scheme, expand) == s[l..r]
  {
    LeafUnique(s, l, r, LeafEnd(s, l).value);
    assert Ahead(s, r, r, scheme, expand) == "";
  }

  lemma LeafBefore(s: string, l: nat, r: nat, scheme: string, expand: Expander)
    requires IsLeaf(s, l, r)
    ensures !Matches(scheme, Body(s, Token(l, r))) ==> Trailing(Ahead(s, 0, r, scheme, expand)) == 0
  {
    hide Ahead;
    if !Matches(scheme, Body(s, Token(l, r))) {
      LeafStartOutside(s, l, r);
      AheadJoins(s, 0, l, r, scheme, expand);
      LeafCopied(s, l, r, scheme, expand);
      var before := Ahead(s, 0, l, scheme, expand);
      assert before + s[l..r] == (before + s[l..r - 1]) + [s[r - 1]];
      TrailingNone(before + s[l..r - 1], s[r - 1]);
    }
  }

  lemma PlainBefore(s: string, r: nat, scheme: string, expand: Expander)
    requires 0 < r <= |s| && !LeafEndsAt(s, r) && Outside(s, 0, r) && s[r - 1] != '$'
    ensures Trailing(Ahead(s, 0, r, scheme, expand)) == 0
  {
    forall l: nat, b: nat | l < r - 1 && IsLeaf(s, l, b)
      ensures b <= r - 1
    {
      assert b == r ==> LeafEndsAt(s, r);
    }
    AheadJoins(s, 0, r - 1, r, scheme, expand);
    var last := r - 1;
    assert LeafEnd(s, last).None?;
    assert Ahead(s, r, r, scheme, expand) == "";
    assert Ahead(s, last, r, scheme, expand) == [s[last]];
    TrailingNone(Ahead(s, 0, last, scheme, expand), s[last]);
  }

  /** An opening that is not expanded is still there afterwards, at its image. */
  lemma OpeningKept(s: string, a: nat, scheme: string, expand: Expander)
    requires OpensAt(s, a) && forall b: nat :: IsLeaf(s, a, b) ==> !Matches(scheme, Body(s, Token(a, b)))
    ensures var out, at := Substituted(s, 0, scheme, expand), Image(s, a, scheme, expand);
      && OpensAt(out, at) && DollarsBefore(out, at) == Trailing(Ahead(s, 0, a, scheme, expand))
      && HasOpen(out, 0, |out|)
  {
    var out, at := Substituted(s, 0, scheme, expand), Image(s, a, scheme, expand);
    OpeningIsOutside(s, a, a);
    AheadSplits(s, 0, a, scheme, expand);
    var rest := Substituted(s, a, scheme, expand);
    KeptText(s, a, scheme, expand);
    assert out == Ahead(s, 0, a, scheme, expand) + rest;
    assert out[at] == rest[0] && out[at + 1] == rest[1];
    DollarsOfPrefix(Ahead(s, 0, a, scheme, expand), rest, at);
    assert OpensAt(out, at);
  }

  lemma KeptText(s: string, a: nat, scheme: string, expand: Expander)
    requires OpensAt(s, a) && forall b: nat :: IsLeaf(s, a, b) ==> !Matches(scheme, Body(s, Token(a, b)))
    ensures OpensAt(Substituted(s, a, scheme, expand), 0)
  {
    var b := LeafEnd(s, a);
    if b.Some? {
      LeafText(s, Token(a, b.value), scheme, expand);
      assert s[a..b.value][0] == s[a] && s[a..b.value][1] == s[a + 1];
    } else {
      assert LeafEnd(s, a + 1).None?;
      assert Substituted(s, a, scheme, expand) == [s[a]] + ([s[a + 1]] + Substituted(s, a + 2, scheme, expand));
    }
  }

  // ---------------------------------------------------------------- the fate of an escape

  /** A `${file:...}` reference starts here. */
  ghost predicate FileLeafAt(s: string, a: nat) {
    exists b: nat :: IsLeaf(s, a, b) && Matches("file", Body(s, Token(a, b)))
  }

  /** For every string and environment: an opening the first phase does not expand is kept, behind its own
      dollars and those the expansions before it end in. */
  lemma OpeningAfterFirstPhase(s: string, a: nat, getenv: string -> string)
    requires OpensAt(s, a) && Substitute(s, "env", EnvExpander(getenv)).Ok?
    requires forall b: nat :: IsLeaf(s, a, b) ==> !Matches("env", Body(s, Token(a, b)))
    ensures var mid, at := Substitute(s, "env", EnvExpander(getenv)).text, Image(s, a, "env", EnvExpander(getenv));
      OpensAt(mid, at) && DollarsBefore(mid, at) == Spliced(s, a, "env", EnvExpander(getenv)) + DollarsBefore(s, a)
  {
    hide Image, Spliced;
    OpeningKept(s, a, "env", EnvExpander(getenv));
    TrailingOfAhead(s, a, "env", EnvExpander(getenv));
  }

  /** An escaped opening stays escaped exactly when the expansions directly before its dollars end in an even
      run of dollars. */
  lemma EscapeKept(s: string, a: nat, getenv: string -> string)
    requires Escaped(s, a) && Substitute(s, "env", EnvExpander(getenv)).Ok?
    ensures var mid, at := Substitute(s, "env", EnvExpander(getenv)).text, Image(s, a, "env", EnvExpander(getenv));
      && OpensAt(mid, at)
      && (Escaped(mid, at) <==> Spliced(s, a, "env", EnvExpander(getenv)) % 2 == 0)
  {
    hide Image, Spliced;
    OpeningAfterFirstPhase(s, a, getenv);
    Parity(Spliced(s, a, "env", EnvExpander(getenv)), DollarsBefore(s, a));
  }

  /** The mirror image. A live opening of the second phase stays live exactly when the expansions directly
      before its dollars end in an even run of dollars; otherwise it has become escaped, and the string
      never resolves. */
  lemma LiveKept(s: string, a: nat, getenv: string -> string)
    requires IsOpen(s, a) && Substitute(s, "env", EnvExpander(getenv)).Ok?
    requires forall b: nat :: IsLeaf(s, a, b) ==> !Matches("env", Body(s, Token(a, b)))
    ensures var mid, at := Substitute(s, "env", EnvExpander(getenv)).text, Image(s, a, "env", EnvExpander(getenv));
      && OpensAt(mid, at)
      && (IsOpen(mid, at) <==> Spliced(s, a, "env", EnvExpander(getenv)) % 2 == 0)
    ensures Spliced(s, a, "env", EnvExpander(getenv)) % 2 == 1 ==> NeverResolves(s, getenv)
  {
    hide Image, Spliced, Substituted, Failing;
    OpeningAfterFirstPhase(s, a, getenv);
    Parity(Spliced(s, a, "env", EnvExpander(getenv)), DollarsBefore(s, a) + 1);
    var mid, at := Substitute(s, "env", EnvExpander(getenv)).text, Image(s, a, "env", EnvExpander(getenv));
    LeafIsOpen(mid, at);
    if !FileLeafAt(mid, at) {
      forall read
        ensures !Resolve(s, getenv, read).Ok?
        ensures Substitute(mid, "file", FileExpander(read)).Ok? ==> Resolve(s, getenv, read) == Unresolved
      {
        SurvivorIsUnresolved(s, getenv, at, read);
      }
    }
  }

  lemma Parity(m: nat, n: nat)
    requires n % 2 == 1
    ensures (m + n) % 2 == 1 <==> m % 2 == 0
    ensures n > 0 ==> ((m + (n - 1)) % 2 == 0 <==> m % 2 == 0)
  {
  }

  /** A string whose first-phase text holds an opening that is no file reference never resolves: it is
      unresolved as soon as the second phase gets through. */
  lemma SurvivorIsUnresolved(s: string, getenv: string -> string, at: nat, read: string -> Option<string>)
    requires Substitute(s, "env", EnvExpander(getenv)).Ok?
    requires var mid := Substitute(s, "env", EnvExpander(getenv)).text; OpensAt(mid, at) && !FileLeafAt(mid, at)
    ensures !Resolve(s, getenv, read).Ok?
    ensures Substitute(Substitute(s, "env", EnvExpander(getenv)).text, "file", FileExpander(read)).Ok? ==>
      Resolve(s, getenv, read) == Unresolved
  {
    var mid := Substitute(s, "env", EnvExpander(getenv)).text;
    forall b: nat | IsLeaf(mid, at, b)
      ensures !Matches("file", Body(mid, Token(at, b)))
    {
      assert Matches("file", Body(mid, Token(at, b))) ==> FileLeafAt(mid, at);
    }
    OpeningKept(mid, at, "file", FileExpander(read));
  }

  /** Whatever the files hold: unresolved if the second phase gets through, another error if not. */
  ghost predicate NeverResolves(s: string, getenv: string -> string)
    requires Substitute(s, "env", EnvExpander(getenv)).Ok?
  {
    forall read ::
      && !Resolve(s, getenv, read).Ok?
      && (Substitute(Substitute(s, "env", EnvExpander(getenv)).text, "file", FileExpander(read)).Ok? ==>
            Resolve(s, getenv, read) == Unresolved)
  }

  /** The fate of any escaped opening in any string whose first phase succeeds. It is taken for a reference
      only if the expansions directly before it end in an odd run of dollars and it has the shape of a
      file reference then; in every other case the string does not resolve, whatever the files hold. */
  lemma EscapeExact(s: string, a: nat, getenv: string -> string)
    requires Escaped(s, a) && Substitute(s, "env", EnvExpander(getenv)).Ok?
    ensures var mid, at := Substitute(s, "env", EnvExpander(getenv)).text, Image(s, a, "env", EnvExpander(getenv));
      && (FileLeafAt(mid, at) ==> Spliced(s, a, "env", EnvExpander(getenv)) % 2 == 1)
      && (FileLeafAt(mid, at) || NeverResolves(s, getenv))
  {
    hide Image, Spliced, Substituted, Failing;
    var mid, at := Substitute(s, "env", EnvExpander(getenv)).text, Image(s, a, "env", EnvExpander(getenv));
    EscapeKept(s, a, getenv);
    LeafIsOpen(mid, at);
    if !FileLeafAt(mid, at) {
      forall read
        ensures !Resolve(s, getenv, read).Ok?
        ensures Substitute(mid, "file", FileExpander(read)).Ok? ==> Resolve(s, getenv, read) == Unresolved
      {
        SurvivorIsUnresolved(s, getenv, at, read);
      }
    }
  }

  lemma LeafIsOpen(s: string, a: nat)
    ensures FileLeafAt(s, a) ==> IsOpen(s, a)
  {
  }

  // ---------------------------------------------------------------- which strings can resolve at all

  ghost predicate AllFileReferences(s: string) {
    forall i: nat :: OpensAt(s, i) ==> FileLeafAt(s, i)
  }

  const ANY_FILE: string -> Option<string> := path => Some("x")

  lemma AnyFile(path: string)
    ensures FileExpander(ANY_FILE)(path) == Some("x")
  {
    assert TrimRight("x") == "x";
  }

  lemma {:induction false} InsideLeaf(s: string, l: nat, b: nat, i: nat)
    requires IsLeaf(s, l, b) && l + 2 <= i <= b - 1 && Depth(s, l) == 0
    ensures Depth(s, i) == 1
    decreases i
  {
    if i == l + 2 {
      assert Depth(s, l + 1) == 0;
    } else {
      InsideLeaf(s, l, b, i - 1);
      LeafHoldsNoOpening(s, l, b, i - 2);
      assert i == l + 3 ==> !OpensAt(s, i - 2);
    }
  }

  lemma FileLeafReaches(s: string, a: nat)
    ensures FileLeafAt(s, a) ==> !Outside(s, 0, a + 2)
  {
    if FileLeafAt(s, a) {
      var b: nat :| IsLeaf(s, a, b) && Matches("file", Body(s, Token(a, b)));
      assert a < a + 2 < b;
    }
  }

  lemma {:induction false} ClosedOutside(s: string, i: nat)
    requires AllFileReferences(s) && i <= |s| && Outside(s, 0, i)
    ensures Depth(s, i) == 0
    decreases i
  {
    if i > 0 {
      if LeafEndsAt(s, i) {
        var l: nat :| IsLeaf(s, l, i);
        LeafStartOutside(s, l, i);
        ClosedOutside(s, l);
        InsideLeaf(s, l, i, i - 1);
      } else {
        forall l: nat, b: nat | l < i - 1 && IsLeaf(s, l, b)
          ensures b <= i - 1
        {
          assert b == i ==> LeafEndsAt(s, i);
        }
        ClosedOutside(s, i - 1);
        if i >= 2 {
          FileLeafReaches(s, i - 2);
        }
      }
    }
  }

  lemma LeafStartOutside(s: string, l: nat, r: nat)
    requires IsLeaf(s, l, r)
    ensures Outside(s, 0, l)
  {
    assert OpensAt(s, l);
    OpeningIsOutside(s, l, l);
  }

  lemma {:induction false} NothingFails(s: string, i: nat, scheme: string, expand: Expander)
    requires i <= |s| && forall arg :: expand(arg).Some?
    ensures Failing(s, i, scheme, expand) == None
    decreases |s| - i
  {
    if i < |s| {
      var b := LeafEnd(s, i);
      NothingFails(s, if b.Some? then b.value else i + 1, scheme, expand);
    }
  }

  lemma {:induction false} NothingOpens(s: string, i: nat)
    requires i <= |s| && AllFileReferences(s)
    ensures var out := Substituted(s, i, "file", FileExpander(ANY_FILE));
      && (forall t: nat :: !OpensAt(out, t)) && (out != "" && out[0] == '{' ==> i < |s| && s[i] == '{')
    decreases |s| - i
  {
    if i < |s| {
      var b := LeafEnd(s, i);
      if b.None? {
        NothingOpens(s, i + 1);
        NoFileLeaf(s, i);
        PrependKeeps([s[i]], Substituted(s, i + 1, "file", FileExpander(ANY_FILE)));
      } else {
        NothingOpens(s, b.value);
        var t := Token(i, b.value);
        assert OpensAt(s, i);
        FileLeafMatches(s, i, b.value);
        AnyFile(Argument("file", Body(s, t)));
        LeafText(s, t, "file", FileExpander(ANY_FILE));
        PrependKeeps("x", Substituted(s, b.value, "file", FileExpander(ANY_FILE)));
      }
    }
  }

  lemma NoFileLeaf(s: string, i: nat)
    requires AllFileReferences(s) && LeafEnd(s, i).None?
    ensures !OpensAt(s, i)
  {
  }

  lemma FileLeafMatches(s: string, i: nat, b: nat)
    requires FileLeafAt(s, i) && IsLeaf(s, i, b)
    ensures Matches("file", Body(s, Token(i, b)))
  {
    var c: nat :| IsLeaf(s, i, c) && Matches("file", Body(s, Token(i, c)));
    LeafUnique(s, i, b, c);
  }

  lemma PrependKeeps(c: string, rest: string)
    requires |c| == 1 && (forall t: nat :: !OpensAt(rest, t)) && !(c[0] == '$' && rest != "" && rest[0] == '{')
    ensures forall t: nat :: !OpensAt(c + rest, t)
  {
    forall t: nat
      ensures !OpensAt(c + rest, t)
    {
      assert t > 0 ==> !OpensAt(rest, t - 1);
    }
  }

  /** For every string and environment: some contents of the files make it resolve exactly when every
      opening the first phase leaves, escaped or not in the original, begins a file reference. */
  lemma ResolvableExact(s: string, getenv: string -> string)
    requires Substitute(s, "env", EnvExpander(getenv)).Ok?
    ensures (exists read :: Resolve(s, getenv, read).Ok?) <==> AllFileReferences(Substitute(s, "env", EnvExpander(getenv)).text)
  {
    var mid := Substitute(s, "env", EnvExpander(getenv)).text;
    if AllFileReferences(mid) {
      AllResolve(s, getenv);
      assert Resolve(s, getenv, ANY_FILE).Ok?;
    } else {
      var at: nat :| OpensAt(mid, at) && !FileLeafAt(mid, at);
      forall read
        ensures !Resolve(s, getenv, read).Ok?
      {
        SurvivorIsUnresolved(s, getenv, at, read);
      }
    }
  }

  lemma AllResolve(s: string, getenv: string -> string)
    requires Substitute(s, "env", EnvExpander(getenv)).Ok?
    requires AllFileReferences(Substitute(s, "env", EnvExpander(getenv)).text)
    ensures Resolve(s, getenv, ANY_FILE).Ok?
  {
    var mid := Substitute(s, "env", EnvExpander(getenv)).text;
    AllClosed(mid);
    ClosedOutside(mid, |mid|);
    forall arg
      ensures FileExpander(ANY_FILE)(arg).Some?
    {
      AnyFile(arg);
    }
    NothingFails(mid, 0, "file", FileExpander(ANY_FILE));
    NothingOpens(mid, 0);
  }

  lemma AllClosed(s: string)
    ensures Outside(s, 0, |s|)
  {
  }

  // ---------------------------------------------------------------- an escape that is undone

  /** With D set to a dollar, the escape in this string pairs its dollar with the one that was spliced in,
      and the reference it was to protect is expanded. */
  lemma EscapeUndone(getenv: string -> string, read: string -> Option<string>)
    requires getenv("D") == "$" && read("p") == Some("x")
    ensures Escaped("${env:D}$${file:p}", 9)
    ensures Resolve("${env:D}$${file:p}", getenv, read) == Ok("$x")
  {
    hide Substitute, HasOpen, Unescape, Escaped;
    UndoneStart("${env:D}$${file:p}");
    UndoneFirst("${env:D}$${file:p}", getenv);
    UndoneSecond("$$${file:p}", read);
    UndoneLast();
  }

  lemma DollarVariable(name: string, getenv: string -> string)
    requires |name| == 1 && getenv(name) == "$"
    ensures ExpandEnv(getenv, name) == Some("$")
  {
    assert !SeparatorAt(name, 0);
  }

  lemma UndoneStart(s: string)
    requires s == "${env:D}$${file:p}"
    ensures Escaped(s, 9)
  {
    assert DollarsBefore(s, 8) == 0 && DollarsBefore(s, 9) == 1;
  }

  /** A string with one leaf. */
  lemma SingleLeaf(s: string, t: Token, scheme: string, expand: Expander)
    requires IsLeaf(s, t.start, t.end) && NoLeafStarts(s, 0, t.start) && NoLeafStarts(s, t.end, |s|)
    requires Value(s, t, scheme, expand).Some? && Depth(s, |s|) == 0
    ensures Substitute(s, scheme, expand) == Ok(s[..t.start] + (Value(s, t, scheme, expand).value + s[t.end..]))
  {
    hide Substituted, Failing, LeafEnd, Value;
    PlainText(s, 0, t.start, scheme, expand);
    PlainFails(s, 0, t.start, scheme, expand);
    LeafText(s, t, scheme, expand);
    LeafFails(s, t, scheme, expand);
    PlainText(s, t.end, |s|, scheme, expand);
    PlainFails(s, t.end, |s|, scheme, expand);
    NothingLeft(s, scheme, expand);
    assert s[0..t.start] == s[..t.start];
    assert s[t.end..|s|] + "" == s[t.end..];
  }

  lemma NothingLeft(s: string, scheme: string, expand: Expander)
    ensures Substituted(s, |s|, scheme, expand) == "" && Failing(s, |s|, scheme, expand) == None
  {
  }

  lemma {:induction false} StaysClosed(s: string, i: nat, j: nat)
    requires i <= j <= |s| && Depth(s, i) == 0 && forall q: nat :: i < q + 2 <= j ==> !IsOpen(s, q)
    ensures Depth(s, j) == 0
    decreases j
  {
    if i < j {
      StaysClosed(s, i, j - 1);
    }
  }

  lemma SingleLeafCloses(s: string, t: Token)
    requires IsLeaf(s, t.start, t.end) && (forall q: nat :: q != t.start ==> !IsOpen(s, q))
    ensures NoLeafStarts(s, 0, t.start) && NoLeafStarts(s, t.end, |s|) && Depth(s, |s|) == 0
  {
    StaysClosed(s, 0, t.start);
    InsideLeaf(s, t.start, t.end, t.end - 1);
    StaysClosed(s, t.end, |s|);
  }

  lemma UndoneFirst(s: string, getenv: string -> string)
    requires s == "${env:D}$${file:p}" && getenv("D") == "$"
    ensures Substitute(s, "env", EnvExpander(getenv)) == Ok("$$${file:p}")
  {
    hide Substitute, Depth, NoLeafStarts, Value, IsLeaf, IsOpen;
    var t := Token(0, 8);
    UndoneFirstShape(s);
    SingleLeafCloses(s, t);
    UndoneFirstValue(s, getenv);
    SingleLeaf(s, t, "env", EnvExpander(getenv));
    assert s[8..] == "$${file:p}";
  }

  lemma UndoneFirstValue(s: string, getenv: string -> string)
    requires s == "${env:D}$${file:p}" && getenv("D") == "$"
    ensures Value(s, Token(0, 8), "env", EnvExpander(getenv)) == Some("$")
  {
    var body := Body(s, Token(0, 8));
    assert body == "env" + ":" + "D";
    SchemeArgument("env", "D");
    DollarVariable("D", getenv);
  }

  lemma SchemeArgument(scheme: string, arg: string)
    ensures Matches(scheme, scheme + ":" + arg) && Argument(scheme, scheme + ":" + arg) == arg
  {
    assert (scheme + ":" + arg)[..|scheme| + 1] == scheme + ":";
  }

  lemma UndoneFirstShape(s: string)
    requires s == "${env:D}$${file:p}"
    ensures |s| == 18 && IsLeaf(s, 0, 8) && forall q: nat :: q != 0 ==> !IsOpen(s, q)
  {
    assert DollarsBefore(s, 8) == 0 && DollarsBefore(s, 9) == 1;
  }

  lemma UndoneSecond(s: string, read: string -> Option<string>)
    requires s == "$$${file:p}" && read("p") == Some("x")
    ensures Substitute(s, "file", FileExpander(read)) == Ok("$$x")
  {
    hide Substitute, Depth, NoLeafStarts;
    var t := Token(2, 11);
    UndoneSecondShape(s);
    SingleLeafCloses(s, t);
    var body := Body(s, t);
    assert body == "file" + ":" + "p";
    SchemeArgument("file", "p");
    assert TrimRight("x") == "x";
    SingleLeaf(s, t, "file", FileExpander(read));
    assert s[..2] == "$$" && s[11..] == "";
  }

  lemma UndoneSecondShape(s: string)
    requires s == "$$${file:p}"
    ensures |s| == 11 && IsLeaf(s, 2, 11) && forall q: nat :: q != 2 ==> !IsOpen(s, q)
  {
    assert DollarsBefore(s, 0) == 0 && DollarsBefore(s, 1) == 1 && DollarsBefore(s, 2) == 2;
  }

  lemma UndoneLast()
    ensures !HasOpen("$$x", 0, 3) && Unescape("$$x") == "$x"
  {
    assert "$$x"[2..] == "x" && "x"[1..] == "";
    assert Unescape("x") == "x";
  }

  // ---------------------------------------------------------------- a reference that is escaped, and files

  /** A string that is one reference throughout. */
  lemma WholeLeaf(body: string)
    requires forall c :: c in body ==> c !in {'$', '}'}
    ensures var s := "${" + body + "}";
      && IsLeaf(s, 0, |s|) && Body(s, Token(0, |s|)) == body && (forall q: nat :: q != 0 ==> !IsOpen(s, q))
  {
    var s := "${" + body + "}";
    assert forall q :: 2 <= q < |s| - 1 ==> s[q] == body[q - 2] && body[q - 2] in body;
    assert forall q :: 1 <= q < |s| ==> s[q] != '$';
  }

  lemma WholeResolves(body: string, scheme: string, expand: Expander, v: string)
    requires forall c :: c in body ==> c !in {'$', '}'}
    requires Matches(scheme, body) ==> expand(Argument(scheme, body)) == Some(v)
    requires !Matches(scheme, body) ==> v == "${" + body + "}"
    ensures Substitute("${" + body + "}", scheme, expand) == Ok(v)
  {
    hide Substitute, Depth, NoLeafStarts, IsLeaf, IsOpen;
    var s := "${" + body + "}";
    var t := Token(0, |s|);
    WholeLeaf(body);
    LeafSize(s, t);
    SingleLeafCloses(s, t);
    assert s[0..|s|] == s && s[..0] == "" && s[|s|..] == "";
    SingleLeaf(s, t, scheme, expand);
    assert "" + (v + "") == v;
  }

  lemma LeafSize(s: string, t: Token)
    requires IsLeaf(s, t.start, t.end)
    ensures t.start + 3 <= t.end <= |s|
  {
  }

  /** A file reference yields the file's trimmed contents exactly when they have neither `$$` nor `${`. */
  lemma FileValueVerbatim(path: string, getenv: string -> string, read: string -> Option<string>)
    requires (forall c :: c in path ==> c !in {'$', '}'}) && read(path).Some?
    ensures var v := TrimRight(read(path).value);
      && (Resolve("${" + ("file:" + path) + "}", getenv, read) == Ok(v) <==> !HasPair(v) && !HasOpen(v, 0, |v|))
      && (HasOpen(v, 0, |v|) ==> Resolve("${" + ("file:" + path) + "}", getenv, read) == Unresolved)
  {
    hide Substitute, HasOpen, Unescape, HasPair;
    var body, v := "file:" + path, TrimRight(read(path).value);
    FileScheme(path);
    WholeResolves(body, "env", EnvExpander(getenv), "${" + body + "}");
    WholeResolves(body, "file", FileExpander(read), v);
    UnescapeIdentity(v);
  }

  lemma FileScheme(path: string)
    ensures Matches("file", "file:" + path) && Argument("file", "file:" + path) == path && !Matches("env", "file:" + path)
    ensures forall c :: c in "file:" + path ==> c in path || c !in {'$', '}'}
  {
    assert "file:" + path == "file" + ":" + path;
    SchemeArgument("file", path);
    assert ("file:" + path)[0] == 'f' && ("env" + ":")[0] == 'e';
  }

  /** Two references one behind the other. */
  lemma TwoLeaves(s: string, t: Token, u: Token, scheme: string, expand: Expander)
    requires t.start == 0 && t.end == u.start && u.end == |s| && IsLeaf(s, t.start, t.end) && IsLeaf(s, u.start, u.end)
    requires Value(s, t, scheme, expand).Some? && Value(s, u, scheme, expand).Some?
    ensures Substitute(s, scheme, expand) == Ok(Value(s, t, scheme, expand).value + Value(s, u, scheme, expand).value)
    ensures Ahead(s, 0, u.start, scheme, expand) == Value(s, t, scheme, expand).value
  {
    LeafText(s, t, scheme, expand);
    LeafText(s, u, scheme, expand);
    LeafFails(s, t, scheme, expand);
    LeafFails(s, u, scheme, expand);
    NothingLeft(s, scheme, expand);
    LeafCloses(s, t);
    LeafCloses(s, u);
    LeafUnique(s, 0, t.end, LeafEnd(s, 0).value);
    assert Ahead(s, t.end, u.start, scheme, expand) == "";
  }

  lemma LeafCloses(s: string, t: Token)
    requires IsLeaf(s, t.start, t.end) && Depth(s, t.start) == 0
    ensures Depth(s, t.end) == 0
  {
    InsideLeaf(s, t.start, t.end, t.end - 1);
  }

  lemma TwoReferences(s: string)
    requires s == "${env:D}${file:p}"
    ensures |s| == 17 && IsLeaf(s, 0, 8) && IsLeaf(s, 8, 17) && IsOpen(s, 8)
    ensures Body(s, Token(0, 8)) == "env:D" && Body(s, Token(8, 17)) == "file:p" && s[8..17] == "${file:p}"
  {
    assert DollarsBefore(s, 0) == 0 && DollarsBefore(s, 8) == 0;
  }

  /** With D set to a dollar, the file reference behind it becomes escaped, and the string is unresolved. */
  lemma ReferenceEscaped(getenv: string -> string, read: string -> Option<string>)
    requires getenv("D") == "$"
    ensures Resolve("${env:D}${file:p}", getenv, read) == Unresolved
  {
    hide Substitute, HasOpen, Unescape;
    EscapedFirst("${env:D}${file:p}", getenv);
    EscapedSecond("$${file:p}", read);
  }

  lemma EscapedFirst(s: string, getenv: string -> string)
    requires s == "${env:D}${file:p}" && getenv("D") == "$"
    ensures Substitute(s, "env", EnvExpander(getenv)) == Ok("$${file:p}")
  {
    hide Substitute, IsLeaf, IsOpen, Ahead;
    TwoReferences(s);
    DollarVariable("D", getenv);
    assert "env:D" == "env" + ":" + "D" && "file:p" == "file:" + "p";
    SchemeArgument("env", "D");
    FileScheme("p");
    TwoLeaves(s, Token(0, 8), Token(8, 17), "env", EnvExpander(getenv));
    assert "$" + "${file:p}" == "$${file:p}";
  }

  lemma EscapedSecond(s: string, read: string -> Option<string>)
    requires s == "$${file:p}"
    ensures Substitute(s, "file", FileExpander(read)) == Ok(s) && HasOpen(s, 0, |s|)
  {
    assert DollarsBefore(s, 0) == 0 && DollarsBefore(s, 1) == 1;
    assert OpensAt(s, 1);
    assert Tokenless(s);
    TokenlessSubstitute(s, "file", FileExpander(read));
  }
}
