/** Replacing the references found, scheme by scheme, and what a resolved string looks like. */
module InterpolateResolve {
  import opened Lifecycle
  import opened Interpolate

  type Expander = string -> Option<string>

  // ---------------------------------------------------------------- simultaneous substitution

  /** Where the leaf that starts here ends. */
  ghost function LeafEnd(s: string, a: nat): (b: Option<nat>)
    ensures b.Some? ==> IsLeaf(s, a, b.value)
    ensures b.None? ==> forall c: nat :: !IsLeaf(s, a, c)
  {
    if exists b: nat :: IsLeaf(s, a, b) then var b: nat :| IsLeaf(s, a, b); Some(b) else None
  }

  predicate Matches(scheme: string, body: string) {
    scheme + ":" <= body
  }

  function Argument(scheme: string, body: string): string
    requires Matches(scheme, body)
  {
    body[|scheme| + 1..]
  }

  /** What stands for a leaf: its value under this scheme, itself under another. */
  function Value(s: string, t: Token, scheme: string, expand: Expander): Option<string>
    requires t.start + 3 <= t.end <= |s|
  {
    if Matches(scheme, Body(s, t)) then expand(Argument(scheme, Body(s, t))) else Some(s[t.start..t.end])
  }

  /** The last leaf from position i on that cannot be expanded, by its argument. */
  ghost function Failing(s: string, i: nat, scheme: string, expand: Expander): Option<string>
    requires i <= |s|
    decreases |s| - i
  {
    if i == |s| then None
    else
      match LeafEnd(s, i)
      case None => Failing(s, i + 1, scheme, expand)
      case Some(b) =>
        if Failing(s, b, scheme, expand).Some? then Failing(s, b, scheme, expand)
        else if Value(s, Token(i, b), scheme, expand).None? then Some(Argument(scheme, Body(s, Token(i, b))))
        else None
  }

  /** Reading left to right, every leaf replaced by its value and every other character kept. */
  ghost function Substituted(s: string, i: nat, scheme: string, expand: Expander): string
    requires i <= |s|
    decreases |s| - i
  {
    if i == |s| then ""
    else
      match LeafEnd(s, i)
      case None => [s[i]] + Substituted(s, i + 1, scheme, expand)
      case Some(b) =>
        var v := Value(s, Token(i, b), scheme, expand);
        (if v.Some? then v.value else "") + Substituted(s, b, scheme, expand)
  }

  ghost function Substitute(s: string, scheme: string, expand: Expander): Outcome {
    if Depth(s, |s|) > 0 then Unterminated
    else if Failing(s, 0, scheme, expand).Some? then NotExpanded(Failing(s, 0, scheme, expand).value)
    else Ok(Substituted(s, 0, scheme, expand))
  }

  ghost predicate NoLeafStarts(s: string, i: nat, j: nat) {
    forall a: nat, b: nat :: i <= a < j ==> !IsLeaf(s, a, b)
  }

  lemma ConsSlice(s: string, i: nat, j: nat, rest: string)
    requires i < j <= |s|
    ensures [s[i]] + (s[i + 1..j] + rest) == s[i..j] + rest
  {
  }

  /** Between leaves the text is copied. */
  lemma {:induction false} PlainText(s: string, i: nat, j: nat, scheme: string, expand: Expander)
    requires i <= j <= |s| && NoLeafStarts(s, i, j)
    ensures Substituted(s, i, scheme, expand) == s[i..j] + Substituted(s, j, scheme, expand)
    decreases j - i
  {
    if i < j {
      PlainText(s, i + 1, j, scheme, expand);
      assert LeafEnd(s, i).None?;
      ConsSlice(s, i, j, Substituted(s, j, scheme, expand));
    }
  }

  lemma {:induction false} PlainFails(s: string, i: nat, j: nat, scheme: string, expand: Expander)
    requires i <= j <= |s| && NoLeafStarts(s, i, j)
    ensures Failing(s, i, scheme, expand) == Failing(s, j, scheme, expand)
    decreases j - i
  {
    if i < j {
      PlainFails(s, i + 1, j, scheme, expand);
      assert LeafEnd(s, i).None?;
    }
  }

  /** A leaf contributes its value, or the failure if none comes after it. */
  lemma LeafText(s: string, t: Token, scheme: string, expand: Expander)
    requires IsLeaf(s, t.start, t.end)
    ensures Value(s, t, scheme, expand).Some? ==>
      Substituted(s, t.start, scheme, expand) == Value(s, t, scheme, expand).value + Substituted(s, t.end, scheme, expand)
  {
    LeafUnique(s, t.start, t.end, LeafEnd(s, t.start).value);
  }

  lemma LeafFails(s: string, t: Token, scheme: string, expand: Expander)
    requires IsLeaf(s, t.start, t.end)
    ensures Failing(s, t.start, scheme, expand) == (
      if Failing(s, t.end, scheme, expand).Some? then Failing(s, t.end, scheme, expand)
      else if Value(s, t, scheme, expand).None? then Some(Argument(scheme, Body(s, t)))
      else None)
  {
    LeafUnique(s, t.start, t.end, LeafEnd(s, t.start).value);
  }

  /** The end of the leaf before number i, where the part already rewritten begins. */
  function EndBefore(leaves: seq<Token>, i: nat): nat
    requires i <= |leaves|
  {
    if i == 0 then 0 else leaves[i - 1].end
  }

  lemma LeafIn(s: string, leaves: seq<Token>, i: nat)
    requires Collected(s, leaves, |s|) && i < |leaves|
    ensures EndBefore(leaves, i) <= leaves[i].start && IsLeaf(s, leaves[i].start, leaves[i].end)
    ensures NoLeafStarts(s, EndBefore(leaves, i), leaves[i].start)
  {
    hide HasOpen, IsOpen;
    var t := leaves[i];
    assert forall k :: 0 <= k < i ==> leaves[k].start < leaves[k].end <= EndBefore(leaves, i);
    assert forall k :: i < k < |leaves| ==> t.end <= leaves[k].start;
    forall a: nat, b: nat | EndBefore(leaves, i) <= a && IsLeaf(s, a, b)
      ensures t.start <= a
    {
      var k :| 0 <= k < |leaves| && leaves[k] == Token(a, b);
    }
  }

  lemma NoLeafAfterLast(s: string, leaves: seq<Token>)
    requires Collected(s, leaves, |s|)
    ensures EndBefore(leaves, |leaves|) <= |s| && NoLeafStarts(s, EndBefore(leaves, |leaves|), |s|)
  {
    forall a: nat, b: nat | IsLeaf(s, a, b)
      ensures a < EndBefore(leaves, |leaves|)
    {
      var k :| 0 <= k < |leaves| && leaves[k] == Token(a, b);
      assert leaves[k].end <= leaves[|leaves| - 1].end;
    }
  }

  /** From leaf i on everything is replaced, before it nothing is touched, and nothing failed. */
  ghost predicate Spliced(s: string, leaves: seq<Token>, i: nat, cur: string, scheme: string, expand: Expander)
    requires i <= |leaves|
  {
    var from := EndBefore(leaves, i);
    from <= |s| && cur == s[..from] + Substituted(s, from, scheme, expand) && Failing(s, from, scheme, expand) == None
  }

  lemma NothingSpliced(s: string, leaves: seq<Token>, scheme: string, expand: Expander)
    requires Collected(s, leaves, |s|)
    ensures Spliced(s, leaves, |leaves|, s, scheme, expand)
  {
    var from := EndBefore(leaves, |leaves|);
    NoLeafAfterLast(s, leaves);
    PlainText(s, from, |s|, scheme, expand);
    PlainFails(s, from, |s|, scheme, expand);
    assert s == s[..from] + s[from..|s|];
  }

  lemma SpliceText(s: string, t: Token, from: nat, cur: string, tail: string, v: string)
    requires from <= t.start <= t.end <= |s| && cur == s[..t.end] + tail
    ensures cur[..t.start] + v + cur[t.end..] == s[..from] + (s[from..t.start] + (v + tail))
  {
    assert cur[..t.start] == s[..t.start] && cur[t.end..] == tail;
    assert s[..t.start] == s[..from] + s[from..t.start];
  }

  lemma SpliceOne(s: string, leaves: seq<Token>, i: nat, cur: string, scheme: string, expand: Expander)
    requires Collected(s, leaves, |s|) && i < |leaves| && Spliced(s, leaves, i + 1, cur, scheme, expand)
    ensures var t := leaves[i];
      && IsLeaf(s, t.start, t.end) && t.end <= |cur|
      && var v := Value(s, t, scheme, expand);
         v.Some? ==> Spliced(s, leaves, i, cur[..t.start] + v.value + cur[t.end..], scheme, expand)
  {
    var t, from := leaves[i], EndBefore(leaves, i);
    LeafIn(s, leaves, i);
    LeafText(s, t, scheme, expand);
    LeafFails(s, t, scheme, expand);
    PlainText(s, from, t.start, scheme, expand);
    PlainFails(s, from, t.start, scheme, expand);
    var v := Value(s, t, scheme, expand);
    SpliceText(s, t, from, cur, Substituted(s, t.end, scheme, expand), if v.Some? then v.value else "");
  }

  /** Putting back what was there changes nothing. */
  lemma SpliceSame(s: string, leaves: seq<Token>, i: nat, cur: string, scheme: string, expand: Expander)
    requires i < |leaves| && Spliced(s, leaves, i + 1, cur, scheme, expand) && leaves[i].start <= leaves[i].end <= |cur|
    ensures cur[..leaves[i].start] + s[leaves[i].start..leaves[i].end] + cur[leaves[i].end..] == cur
  {
  }

  lemma FailureMovesLeft(s: string, leaves: seq<Token>, i: nat, scheme: string, expand: Expander)
    requires Collected(s, leaves, |s|) && i < |leaves|
    ensures EndBefore(leaves, i) <= leaves[i].end <= |s|
    ensures Failing(s, leaves[i].end, scheme, expand).Some? ==>
      Failing(s, EndBefore(leaves, i), scheme, expand) == Failing(s, leaves[i].end, scheme, expand)
  {
    LeafIn(s, leaves, i);
    LeafFails(s, leaves[i], scheme, expand);
    PlainFails(s, EndBefore(leaves, i), leaves[i].start, scheme, expand);
  }

  /** The leaf that fails with none failing after it is the one reported. */
  lemma {:induction false} ReportedFailure(s: string, leaves: seq<Token>, i: nat, scheme: string, expand: Expander)
    requires Collected(s, leaves, |s|) && i <= |leaves| && EndBefore(leaves, i) <= |s|
    ensures Failing(s, EndBefore(leaves, i), scheme, expand).Some? ==>
      Failing(s, 0, scheme, expand) == Failing(s, EndBefore(leaves, i), scheme, expand)
  {
    if i > 0 {
      FailureMovesLeft(s, leaves, i - 1, scheme, expand);
      ReportedFailure(s, leaves, i - 1, scheme, expand);
    }
  }

  lemma FailureAt(s: string, leaves: seq<Token>, i: nat, cur: string, scheme: string, expand: Expander)
    requires Collected(s, leaves, |s|) && i < |leaves| && Spliced(s, leaves, i + 1, cur, scheme, expand)
    requires IsLeaf(s, leaves[i].start, leaves[i].end) && Value(s, leaves[i], scheme, expand).None?
    ensures Failing(s, 0, scheme, expand) == Some(Argument(scheme, Body(s, leaves[i])))
  {
    var t := leaves[i];
    LeafIn(s, leaves, i);
    LeafFails(s, t, scheme, expand);
    PlainFails(s, EndBefore(leaves, i), t.start, scheme, expand);
    ReportedFailure(s, leaves, i, scheme, expand);
  }

  /** Splicing the leaves right to left, in place. */
  method SubstituteTokens(s: string, scheme: string, expand: Expander) returns (out: Outcome)
    ensures out == Substitute(s, scheme, expand)
  {
    var ok, leaves := FindLeafTokens(s);
    if !ok {
      return Unterminated;
    }
    var i, cur := |leaves|, s;
    NothingSpliced(s, leaves, scheme, expand);
    while i > 0
      invariant 0 <= i <= |leaves|
      invariant Spliced(s, leaves, i, cur, scheme, expand)
    {
      i := i - 1;
      var t := leaves[i];
      SpliceOne(s, leaves, i, cur, scheme, expand);
      if !Matches(scheme, Body(s, t)) {
        SpliceSame(s, leaves, i, cur, scheme, expand);
        continue;
      }
      var replacement := expand(Argument(scheme, Body(s, t)));
      if replacement.None? {
        FailureAt(s, leaves, i, cur, scheme, expand);
        return NotExpanded(Argument(scheme, Body(s, t)));
      }
      cur := cur[..t.start] + replacement.value + cur[t.end..];
    }
    assert s[..0] + Substituted(s, 0, scheme, expand) == Substituted(s, 0, scheme, expand);
    out := Ok(cur);
  }

  // ---------------------------------------------------------------- the two phases

  predicate SeparatorAt(arg: string, k: nat) {
    k + 2 <= |arg| && arg[k..k + 2] == ":-"
  }

  /** Where the first separator of a default value is. */
  function IndexOfDefault(arg: string, i: nat): (r: Option<nat>)
    requires i <= |arg|
    ensures r.Some? ==> i <= r.value && SeparatorAt(arg, r.value)
    ensures forall k: nat :: i <= k && (r.Some? ==> k < r.value) ==> !SeparatorAt(arg, k)
    decreases |arg| - i
  {
    if i + 2 > |arg| then None
    else if SeparatorAt(arg, i) then Some(i)
    else IndexOfDefault(arg, i + 1)
  }

  /** The value of an env reference; an empty variable counts as unset. */
  function ExpandEnv(getenv: string -> string, arg: string): Option<string> {
    var idx := IndexOfDefault(arg, 0);
    var name := if idx.Some? then arg[..idx.value] else arg;
    if name == "" then None
    else if getenv(name) != "" then Some(getenv(name))
    else if idx.Some? then Some(arg[idx.value + 2..])
    else None
  }

  function TrimRight(text: string): (r: string)
    ensures r <= text && (r != "" ==> r[|r| - 1] !in {' ', '\t', '\r', '\n'})
    ensures forall k :: |r| <= k < |text| ==> text[k] in {' ', '\t', '\r', '\n'}
    decreases |text|
  {
    if text != "" && text[|text| - 1] in {' ', '\t', '\r', '\n'} then TrimRight(text[..|text| - 1]) else text
  }

  /** The contents of a file, trailing white space trimmed. */
  function ExpandFile(read: string -> Option<string>, path: string): Option<string> {
    match read(path) case None => None case Some(raw) => Some(TrimRight(raw))
  }

  function EnvExpander(getenv: string -> string): Expander {
    (arg: string) => ExpandEnv(getenv, arg)
  }

  function FileExpander(read: string -> Option<string>): Expander {
    (path: string) => ExpandFile(read, path)
  }

  /** `$$` becomes `$`, pair by pair from the left. */
  function Unescape(s: string): string {
    if s == "" then ""
    else if |s| >= 2 && s[0] == '$' && s[1] == '$' then "$" + Unescape(s[2..])
    else [s[0]] + Unescape(s[1..])
  }

  ghost function Resolve(s: string, getenv: string -> string, read: string -> Option<string>): Outcome {
    match Substitute(s, "env", EnvExpander(getenv))
    case Ok(mid) =>
      (match Substitute(mid, "file", FileExpander(read))
       case Ok(out) => if HasOpen(out, 0, |out|) then Unresolved else Ok(Unescape(out))
       case failed => failed)
    case failed => failed
  }

  method ResolveString(s: string, getenv: string -> string, read: string -> Option<string>) returns (out: Outcome)
    ensures out == Resolve(s, getenv, read)
    ensures out.Ok? ==> !HasOpen(out.text, 0, |out.text|)
  {
    out := SubstituteTokens(s, "env", EnvExpander(getenv));
    if !out.Ok? {
      return;
    }
    out := SubstituteTokens(out.text, "file", FileExpander(read));
    if !out.Ok? {
      return;
    }
    if HasOpen(out.text, 0, |out.text|) {
      return Unresolved;
    }
    UnescapeOpensNothing(out.text);
    out := Ok(Unescape(out.text));
  }

  // ---------------------------------------------------------------- what the result can be

  lemma OpenShift(s: string, k: nat)
    requires k <= |s|
    ensures HasOpen(s[k..], 0, |s| - k) ==> HasOpen(s, 0, |s|)
  {
    assert forall t: nat :: t + 2 <= |s| - k && OpensAt(s[k..], t) ==> OpensAt(s, k + t);
  }

  lemma NoOpenIsTokenless(s: string)
    ensures !HasOpen(s, 0, |s|) ==> Tokenless(s)
  {
    assert forall i: nat :: IsOpen(s, i) ==> OpensAt(s, i);
  }

  /** Unescaping never makes a `${` that was not there. */
  lemma {:induction false} UnescapeOpensNothing(s: string)
    requires !HasOpen(s, 0, |s|)
    ensures !HasOpen(Unescape(s), 0, |Unescape(s)|)
    ensures s != "" ==> Unescape(s) != "" && Unescape(s)[0] == s[0]
    decreases |s|
  {
    if s != "" {
      var k := if |s| >= 2 && s[0] == '$' && s[1] == '$' then 2 else 1;
      var rest := s[k..];
      OpenShift(s, k);
      UnescapeOpensNothing(rest);
      var u := Unescape(rest);
      assert Unescape(s) == [s[0]] + u;
      forall t: nat | t + 2 <= |u| + 1
        ensures !OpensAt([s[0]] + u, t)
      {
        if t > 0 {
          assert !OpensAt(u, t - 1);
        } else {
          assert u[0] == rest[0] && rest[0] == s[k];
          assert !OpensAt(s, k - 1);
        }
      }
    }
  }

  predicate PairAt(s: string, i: nat) {
    i + 2 <= |s| && s[i] == '$' && s[i + 1] == '$'
  }

  predicate HasPair(s: string) {
    exists i :: 0 <= i < |s| && PairAt(s, i)
  }

  lemma HasPairTail(s: string)
    requires s != "" && !PairAt(s, 0)
    ensures HasPair(s) <==> HasPair(s[1..])
  {
    assert forall i :: 0 < i < |s| ==> (PairAt(s, i) <==> PairAt(s[1..], i - 1));
    assert forall i :: 0 <= i < |s| - 1 ==> (PairAt(s[1..], i) <==> PairAt(s, i + 1));
  }

  /** Unescaping changes nothing exactly when there is no `$$`. */
  lemma {:induction false} UnescapeIdentity(s: string)
    ensures |Unescape(s)| <= |s|
    ensures Unescape(s) == s <==> !HasPair(s)
    decreases |s|
  {
    if s != "" {
      if PairAt(s, 0) {
        UnescapeIdentity(s[2..]);
      } else {
        UnescapeIdentity(s[1..]);
        HasPairTail(s);
        assert s == [s[0]] + s[1..];
        assert ([s[0]] + Unescape(s[1..]))[1..] == Unescape(s[1..]);
      }
    }
  }

  /** No unescaped opening anywhere: both phases leave the string alone. */
  ghost predicate Tokenless(s: string) {
    forall i: nat :: !IsOpen(s, i)
  }

  lemma {:induction false} TokenlessDepth(s: string, i: nat)
    requires Tokenless(s) && i <= |s|
    ensures Depth(s, i) == 0
    decreases i
  {
    if i > 0 {
      TokenlessDepth(s, i - 1);
    }
  }

  lemma TokenlessSubstitute(s: string, scheme: string, expand: Expander)
    requires Tokenless(s)
    ensures Substitute(s, scheme, expand) == Ok(s)
  {
    TokenlessDepth(s, |s|);
    PlainText(s, 0, |s|, scheme, expand);
    PlainFails(s, 0, |s|, scheme, expand);
    assert s[0..|s|] == s;
  }

  /** A string without a reference resolves exactly when it contains no `${` at all, escaped or not. */
  lemma TokenlessResolve(s: string, getenv: string -> string, read: string -> Option<string>)
    requires Tokenless(s)
    ensures Resolve(s, getenv, read) == if HasOpen(s, 0, |s|) then Unresolved else Ok(Unescape(s))
  {
    TokenlessSubstitute(s, "env", EnvExpander(getenv));
    TokenlessSubstitute(s, "file", FileExpander(read));
  }

  lemma EscapedReferenceFails(getenv: string -> string, read: string -> Option<string>)
    ensures Resolve("$${HOME}", getenv, read) == Unresolved
  {
    var s := "$${HOME}";
    assert DollarsBefore(s, 1) == 1;
    assert OpensAt(s, 1);
    TokenlessResolve(s, getenv, read);
  }

  /** Whatever resolves contains no opening. */
  lemma ResolvedOpensNothing(s: string, getenv: string -> string, read: string -> Option<string>)
    ensures var out := Resolve(s, getenv, read); out.Ok? ==> !HasOpen(out.text, 0, |out.text|)
  {
    var mid := Substitute(s, "env", EnvExpander(getenv));
    if mid.Ok? {
      var out := Substitute(mid.text, "file", FileExpander(read));
      if out.Ok? && !HasOpen(out.text, 0, |out.text|) {
        UnescapeOpensNothing(out.text);
      }
    }
  }

  /** A reference to a set variable resolves to the variable's own text exactly when that text has no
      `$$` and no `${`: a pair is shortened, an opening expanded by the second phase or refused. */
  lemma EnvValueVerbatim(name: string, getenv: string -> string, read: string -> Option<string>)
    requires name != "" && (forall c :: c in name ==> c !in {'$', '}'}) && IndexOfDefault(name, 0).None?
    requires getenv(name) != ""
    ensures var v := getenv(name);
      Resolve("${env:" + name + "}", getenv, read) == Ok(v) <==> !HasPair(v) && !HasOpen(v, 0, |v|)
  {
    var s, v := "${env:" + name + "}", getenv(name);
    ResolvedOpensNothing(s, getenv, read);
    if !HasOpen(v, 0, |v|) {
      OneLeaf(name, getenv);
      NoOpenIsTokenless(v);
      TokenlessSubstitute(v, "file", FileExpander(read));
      UnescapeIdentity(v);
    }
  }

  lemma OneLeaf(name: string, getenv: string -> string)
    requires name != "" && (forall c :: c in name ==> c !in {'$', '}'}) && IndexOfDefault(name, 0).None?
    requires getenv(name) != ""
    ensures Substitute("${env:" + name + "}", "env", EnvExpander(getenv)) == Ok(getenv(name))
  {
    var s := "${env:" + name + "}";
    var n := |s|;
    OneLeafShape(s, name);
    var t := Token(0, n);
    assert Body(s, t) == "env:" + name;
    assert Argument("env", Body(s, t)) == name;
    LeafText(s, t, "env", EnvExpander(getenv));
    LeafFails(s, t, "env", EnvExpander(getenv));
  }

  lemma OneLeafShape(s: string, name: string)
    requires s == "${env:" + name + "}" && forall c :: c in name ==> c !in {'$', '}'}
    ensures IsLeaf(s, 0, |s|) && Depth(s, |s|) == 0
  {
    assert forall q :: 6 <= q < |s| - 1 ==> s[q] == name[q - 6] && name[q - 6] in name;
    assert forall q :: 1 <= q < |s| ==> s[q] != '$';
    DepthInside(s, |s| - 1);
  }

  lemma {:induction false} DepthInside(s: string, i: nat)
    requires 2 <= i < |s| && IsOpen(s, 0) && (forall q :: 1 <= q < |s| ==> s[q] != '$') && forall q :: 0 <= q < |s| - 1 ==> s[q] != '}'
    ensures Depth(s, i) == 1
    decreases i
  {
    if i > 2 {
      DepthInside(s, i - 1);
    } else {
      assert Depth(s, 1) == 0;
    }
  }
}
