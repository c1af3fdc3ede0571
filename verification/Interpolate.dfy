/** Expanding ${env:...} and ${file:...} references in configuration strings. */
module Interpolate {
  import opened Lifecycle

  datatype Token = Token(start: nat, end: nat)

  datatype Outcome = Ok(text: string) | Unterminated | NotExpanded(arg: string) | Unresolved

  // ---------------------------------------------------------------- what a leaf is

  /** The dollars directly before position i. */
  function DollarsBefore(s: string, i: nat): nat
    requires i <= |s|
    decreases i
  {
    if i > 0 && s[i - 1] == '$' then DollarsBefore(s, i - 1) + 1 else 0
  }

  predicate OpensAt(s: string, i: nat) {
    i + 2 <= |s| && s[i] == '$' && s[i + 1] == '{'
  }

  /** An opening that `$$` does not escape. */
  predicate IsOpen(s: string, i: nat) {
    OpensAt(s, i) && DollarsBefore(s, i) % 2 == 0
  }

  /** `${` occurs between the two positions, escaped or not. */
  predicate HasOpen(s: string, from: nat, to: nat) {
    exists t :: from <= t < to && t + 2 <= to && OpensAt(s, t)
  }

  /** An unescaped `${` up to the first `}`, with no `${` in between. */
  predicate IsLeaf(s: string, a: nat, b: nat) {
    && a + 3 <= b <= |s| && IsOpen(s, a) && s[b - 1] == '}'
    && (forall q :: a + 2 <= q < b - 1 ==> s[q] != '}')
    && !HasOpen(s, a + 2, b - 1)
  }

  function Body(s: string, t: Token): string
    requires t.start + 3 <= t.end <= |s|
  {
    s[t.start + 2..t.end - 1]
  }

  /** How many openings are unclosed before position i; a stray `}` closes nothing. */
  function Depth(s: string, i: nat): nat
    requires i <= |s|
    decreases i
  {
    if i == 0 then 0
    else if s[i - 1] == '}' then (if Depth(s, i - 1) == 0 then 0 else Depth(s, i - 1) - 1)
    else if i >= 2 && IsOpen(s, i - 2) then Depth(s, i - 1) + 1
    else Depth(s, i - 1)
  }

  ghost predicate LeafEndsAt(s: string, b: nat) {
    exists a :: IsLeaf(s, a, b)
  }

  lemma LeafStartUnique(s: string, a: nat, c: nat, b: nat)
    requires IsLeaf(s, a, b) && IsLeaf(s, c, b)
    ensures a == c
  {
    assert OpensAt(s, a) && OpensAt(s, c);
  }

  lemma LeafUnique(s: string, a: nat, b: nat, c: nat)
    requires IsLeaf(s, a, b) && IsLeaf(s, a, c)
    ensures b == c
  {
  }

  /** Two leaves never overlap. */
  lemma LeavesDisjoint(s: string, a: nat, b: nat, c: nat, d: nat)
    requires IsLeaf(s, a, b) && IsLeaf(s, c, d) && b < d
    ensures b <= c
  {
    assert s[b - 1] == '}';
  }

  // ---------------------------------------------------------------- the scanner

  /** The stack is ascending and holds openings only. */
  ghost predicate Stacked(s: string, stack: seq<nat>, i: nat) {
    && (forall k :: 0 <= k < |stack| ==> stack[k] + 2 <= i && IsOpen(s, stack[k]))
    && (forall k, l :: 0 <= k < l < |stack| ==> stack[k] + 2 <= stack[l])
  }

  /** A `}` passed since an opening on the stack closed something opened inside it. */
  ghost predicate ClosedInside(s: string, stack: seq<nat>, i: nat)
    requires i <= |s|
  {
    forall k, q :: 0 <= k < |stack| && stack[k] + 2 <= q < i && s[q] == '}' ==> HasOpen(s, stack[k] + 2, q)
  }

  /** An opening with nothing opened or closed since. */
  ghost predicate IsPending(s: string, a: nat, i: nat)
    requires i <= |s|
  {
    a + 2 <= i && IsOpen(s, a) && (forall q :: a + 2 <= q < i ==> s[q] != '}') && !HasOpen(s, a + 2, i)
  }

  ghost predicate TopIsPending(s: string, stack: seq<nat>, i: nat)
    requires i <= |s|
  {
    forall a :: IsPending(s, a, i) ==> stack != [] && stack[|stack| - 1] == a
  }

  /** The position is not inside an escape or an opening. */
  ghost predicate Aligned(s: string, i: nat) {
    && i <= |s|
    && (i < |s| && s[i] == '$' ==> DollarsBefore(s, i) % 2 == 0)
    && (i > 0 ==> !IsOpen(s, i - 1))
  }

  /** Every leaf that ends by position i, in order, and nothing else. */
  ghost predicate Collected(s: string, leaves: seq<Token>, i: nat) {
    && (forall k :: 0 <= k < |leaves| ==> leaves[k].end <= i && IsLeaf(s, leaves[k].start, leaves[k].end))
    && (forall k, l :: 0 <= k < l < |leaves| ==> leaves[k].end <= leaves[l].start)
    && (forall a: nat, b: nat :: IsLeaf(s, a, b) && b <= i ==> Token(a, b) in leaves)
  }

  ghost predicate Scanned(s: string, stack: seq<nat>, leaves: seq<Token>, i: nat) {
    && Aligned(s, i) && Stacked(s, stack, i) && |stack| == Depth(s, i)
    && ClosedInside(s, stack, i) && TopIsPending(s, stack, i) && Collected(s, leaves, i)
  }

  lemma PendingShrinks(s: string, a: nat, i: nat, j: nat)
    requires i <= j <= |s| && IsPending(s, a, j) && a + 2 <= i
    ensures IsPending(s, a, i)
  {
    assert forall t: nat :: a + 2 <= t < i && t + 2 <= i && OpensAt(s, t) ==> HasOpen(s, a + 2, j);
  }

  lemma NoLeafEnds(s: string, leaves: seq<Token>, i: nat, j: nat)
    requires Collected(s, leaves, i) && i <= j <= |s| && forall q :: i <= q < j ==> s[q] != '}'
    ensures Collected(s, leaves, j)
  {
  }

  lemma EscapeStep(s: string, stack: seq<nat>, leaves: seq<Token>, i: nat)
    requires Scanned(s, stack, leaves, i) && i + 1 < |s| && s[i] == '$' && s[i + 1] == '$'
    ensures Scanned(s, stack, leaves, i + 2)
  {
    assert DollarsBefore(s, i + 1) == DollarsBefore(s, i) + 1 && DollarsBefore(s, i + 2) == DollarsBefore(s, i) + 2;
    assert Depth(s, i + 2) == Depth(s, i);
    NoLeafEnds(s, leaves, i, i + 2);
    var j := i + 2;
    forall a: nat | IsPending(s, a, j)
      ensures stack != [] && stack[|stack| - 1] == a
    {
      assert OpensAt(s, a);
      PendingShrinks(s, a, i, i + 2);
    }
  }

  lemma OpenInside(s: string, a: nat, i: nat, j: nat)
    ensures a + 2 <= i && i + 2 <= j && OpensAt(s, i) ==> HasOpen(s, a + 2, j)
  {
  }

  lemma HasOpenGrows(s: string, from: nat, i: nat, j: nat)
    ensures i <= j && HasOpen(s, from, i) ==> HasOpen(s, from, j)
  {
  }

  lemma OpenStep(s: string, stack: seq<nat>, leaves: seq<Token>, i: nat)
    requires Scanned(s, stack, leaves, i) && OpensAt(s, i)
    ensures Scanned(s, stack + [i], leaves, i + 2)
  {
    assert Depth(s, i + 1) == Depth(s, i);
    NoLeafEnds(s, leaves, i, i + 2);
    var j := i + 2;
    forall a: nat | IsPending(s, a, j)
      ensures a == i
    {
      OpenInside(s, a, i, j);
    }
  }

  lemma PlainStep(s: string, stack: seq<nat>, leaves: seq<Token>, i: nat)
    requires Scanned(s, stack, leaves, i) && i < |s|
    requires s[i] != '}' && (s[i] == '$' && i + 1 < |s| ==> s[i + 1] != '$' && s[i + 1] != '{')
    ensures Scanned(s, stack, leaves, i + 1)
  {
    assert i > 0 ==> !IsOpen(s, i - 1);
    NoLeafEnds(s, leaves, i, i + 1);
    var j := i + 1;
    forall a: nat | IsPending(s, a, j)
      ensures stack != [] && stack[|stack| - 1] == a
    {
      assert a != i - 1;
      PendingShrinks(s, a, i, i + 1);
    }
  }

  lemma NothingPendingAfterClose(s: string, stack: seq<nat>, i: nat)
    requires i < |s| && s[i] == '}'
    ensures TopIsPending(s, stack, i + 1)
  {
  }

  lemma StrayCloseStep(s: string, leaves: seq<Token>, i: nat)
    requires Scanned(s, [], leaves, i) && i < |s| && s[i] == '}'
    ensures Scanned(s, [], leaves, i + 1)
  {
    NothingPendingAfterClose(s, [], i);
    forall a: nat, b: nat | IsLeaf(s, a, b) && b <= i + 1
      ensures Token(a, b) in leaves
    {
      assert b == i + 1 ==> IsPending(s, a, i);
    }
  }

  /** The leaf test at a `}` decides exactly whether a leaf ends there. */
  lemma TopIsLeaf(s: string, stack: seq<nat>, leaves: seq<Token>, i: nat)
    requires Scanned(s, stack, leaves, i) && i < |s| && s[i] == '}' && stack != []
    ensures var top := stack[|stack| - 1]; IsLeaf(s, top, i + 1) <==> !HasOpen(s, top + 2, i)
    ensures !IsLeaf(s, stack[|stack| - 1], i + 1) ==> !LeafEndsAt(s, i + 1)
  {
    var top := stack[|stack| - 1];
    var from := top + 2;
    assert forall q: nat :: from <= q < i && s[q] == '}' ==> HasOpen(s, from, q);
    if !HasOpen(s, from, i) {
      forall q: nat | from <= q < i
        ensures s[q] != '}'
      {
        HasOpenGrows(s, from, q, i);
      }
    }
    var b := i + 1;
    forall a: nat | IsLeaf(s, a, b)
      ensures a == top
    {
      assert IsPending(s, a, i);
    }
  }

  lemma CollectOne(s: string, leaves: seq<Token>, i: nat, top: nat)
    requires Collected(s, leaves, i) && i < |s| && IsLeaf(s, top, i + 1)
    ensures Collected(s, leaves + [Token(top, i + 1)], i + 1)
  {
    var more := leaves + [Token(top, i + 1)];
    assert more[|leaves|] == Token(top, i + 1);
    forall a: nat, b: nat | IsLeaf(s, a, b) && b <= i + 1
      ensures Token(a, b) in more
    {
      assert b <= i ==> Token(a, b) in leaves;
      if b == i + 1 {
        LeafStartUnique(s, a, top, b);
      }
    }
    forall k | 0 <= k < |leaves|
      ensures leaves[k].end <= top
    {
      LeavesDisjoint(s, leaves[k].start, leaves[k].end, top, i + 1);
    }
  }

  lemma CollectNone(s: string, leaves: seq<Token>, i: nat)
    requires Collected(s, leaves, i) && i < |s| && !LeafEndsAt(s, i + 1)
    ensures Collected(s, leaves, i + 1)
  {
    forall a: nat, b: nat | IsLeaf(s, a, b) && b <= i + 1
      ensures b <= i
    {
      assert b == i + 1 ==> LeafEndsAt(s, b);
    }
  }

  lemma PopStep(s: string, stack: seq<nat>, leaves: seq<Token>, i: nat)
    requires Scanned(s, stack, leaves, i) && i < |s| && s[i] == '}' && stack != []
    ensures var rest := stack[..|stack| - 1];
      Aligned(s, i + 1) && Stacked(s, rest, i + 1) && |rest| == Depth(s, i + 1) && ClosedInside(s, rest, i + 1) && TopIsPending(s, rest, i + 1)
  {
    var top, rest := stack[|stack| - 1], stack[..|stack| - 1];
    NothingPendingAfterClose(s, rest, i);
    forall k | 0 <= k < |rest|
      ensures HasOpen(s, rest[k] + 2, i)
    {
      assert OpensAt(s, top) && rest[k] + 2 <= top;
    }
  }

  /** Every leaf of the string, in document order; an error when an opening is never closed. */
  method FindLeafTokens(s: string) returns (ok: bool, leaves: seq<Token>)
    ensures ok <==> Depth(s, |s|) == 0
    ensures ok ==> Collected(s, leaves, |s|)
  {
    var stack: seq<nat> := [];
    leaves := [];
    var i := 0;
    while i < |s|
      invariant Scanned(s, stack, leaves, i)
      decreases |s| - i
    {
      if s[i] == '$' && i + 1 < |s| && s[i + 1] == '$' {
        EscapeStep(s, stack, leaves, i);
        i := i + 2;
      } else if s[i] == '$' && i + 1 < |s| && s[i + 1] == '{' {
        OpenStep(s, stack, leaves, i);
        stack := stack + [i];
        i := i + 2;
      } else if s[i] == '}' && |stack| > 0 {
        var start := stack[|stack| - 1];
        TopIsLeaf(s, stack, leaves, i);
        PopStep(s, stack, leaves, i);
        stack := stack[..|stack| - 1];
        if !HasOpen(s, start + 2, i) {
          CollectOne(s, leaves, i, start);
          leaves := leaves + [Token(start, i + 1)];
        } else {
          CollectNone(s, leaves, i);
        }
        i := i + 1;
      } else if s[i] == '}' {
        StrayCloseStep(s, leaves, i);
        i := i + 1;
      } else {
        PlainStep(s, stack, leaves, i);
        i := i + 1;
      }
    }
    ok := |stack| == 0;
  }
}
