/**
 * Properties of the session state machine that relate several events: what a
 * sequence of clicks and timers leads to, what no sequence can undo, and how
 * the intro chain opens input.
 */
module SessionProperties {

  import opened Wrappers
  import opened Tiles
  import opened SessionModel

  /** Running two event sequences one after the other is running their concatenation. */
  lemma {:induction false} RunAppend(s: State, a: seq<Event>, b: seq<Event>)
    requires Inv(s)
    ensures Run(s, a + b) == Run(Run(s, a), b)
    decreases |a|
  {
    if a == [] {
      assert a + b == b;
    } else {
      assert (a + b)[0] == a[0];
      assert (a + b)[1..] == a[1..] + b;
      RunAppend(if Deliverable(s, a[0]) then Step(s, a[0]) else s, a[1..], b);
    }
  }

  /** No event short of a restart un-matches a piece or renames one. */
  lemma StepKeepsMatches(s: State, e: Event)
    requires Inv(s) && Deliverable(s, e) && !e.RestartClicked?
    ensures |Step(s, e).pieces| == |s.pieces|
    ensures forall k :: 0 <= k < |s.pieces| ==>
      Step(s, e).pieces[k].name == s.pieces[k].name && (s.pieces[k].checked ==> Step(s, e).pieces[k].checked)
  {
  }

  /** `checked` is never cleared: across any events without a restart (which
      replaces the pieces wholesale), a matched piece stays matched, and no piece
      changes its name. */
  lemma {:induction false} CheckedNeverCleared(s: State, es: seq<Event>)
    requires Inv(s)
    requires forall n :: 0 <= n < |es| ==> !es[n].RestartClicked?
    ensures |Run(s, es).pieces| == |s.pieces|
    ensures forall k :: 0 <= k < |s.pieces| ==>
      Run(s, es).pieces[k].name == s.pieces[k].name && (s.pieces[k].checked ==> Run(s, es).pieces[k].checked)
    decreases |es|
  {
    if es != [] {
      var t := if Deliverable(s, es[0]) then Step(s, es[0]) else s;
      if Deliverable(s, es[0]) {
        StepKeepsMatches(s, es[0]);
      }
      assert forall n :: 0 <= n < |es[1..]| ==> es[1..][n] == es[n + 1];
      CheckedNeverCleared(t, es[1..]);
    }
  }

  /** Pieces become matched only through a pair the player selected: while no
      resolver is pending and no piece is matched, events without clicks (restarts
      included) never match a piece. In particular a restart during a pending
      comparison cancels its outcome. */
  lemma {:induction false} NoMatchWithoutClicks(s: State, es: seq<Event>)
    requires Inv(s) && s.resolver.None?
    requires forall k :: 0 <= k < |s.pieces| ==> !s.pieces[k].checked
    requires forall n :: 0 <= n < |es| ==> !es[n].Clicked?
    ensures Run(s, es).resolver.None?
    ensures forall k :: 0 <= k < |Run(s, es).pieces| ==> !Run(s, es).pieces[k].checked
    decreases |es|
  {
    if es != [] {
      var t := if Deliverable(s, es[0]) then Step(s, es[0]) else s;
      assert t.resolver.None?;
      assert forall k :: 0 <= k < |t.pieces| ==> !t.pieces[k].checked;
      assert forall n :: 0 <= n < |es[1..]| ==> es[1..][n] == es[n + 1];
      NoMatchWithoutClicks(t, es[1..]);
    }
  }

  /** A restart cancels a pending comparison: whatever happens afterwards without
      a click, no piece of the new list becomes matched. */
  lemma RestartCancelsPendingPair(s: State, names: seq<string>, es: seq<Event>)
    requires Inv(s) && |names| == |s.faces|
    requires forall n :: 0 <= n < |es| ==> !es[n].Clicked?
    ensures forall k :: 0 <= k < |Run(Restart(s, names), es).pieces| ==> !Run(Restart(s, names), es).pieces[k].checked
  {
    NoMatchWithoutClicks(Restart(s, names), es);
  }

  /** Two clicks on different unmatched pieces with equal names, then the 400 ms
      timer: both pieces are matched and both slots are empty again. */
  lemma MatchedPairRetired(s: State, i: nat, j: nat, h1: nat, h2: nat)
    requires Inv(s) && s.enabled && s.piece1.None?
    requires i < |s.faces| && j < |s.faces| && i != j
    requires Selectable(s, i) && Selectable(s, j) && s.pieces[i].name == s.pieces[j].name
    ensures Click(s, i, h1).1 == FirstSelected
    ensures Click(Click(s, i, h1).0, j, h2).1 == SecondSelected(Match)
    ensures var r := Run(s, [Clicked(i, h1), Clicked(j, h2), ResolverFired]);
      r.pieces[i].checked && r.pieces[j].checked && r.piece1.None? && r.piece2.None? && r.resolver.None?
  {
    var s1 := Click(s, i, h1).0;
    var s2 := Click(s1, j, h2).0;
    var s3 := ResolverFires(s2);
    var es := [Clicked(i, h1), Clicked(j, h2), ResolverFired];
    assert Run(s, es) == Run(s1, es[1..]);
    assert Run(s1, es[1..]) == Run(s2, es[2..]);
    assert Run(s2, es[2..]) == Run(s3, []);
  }

  /** Two clicks on different unmatched pieces with different names, then the
      800 ms timer: neither piece is matched, both slots are empty, and both
      elements show the placeholder again. */
  lemma MismatchedPairConcealed(s: State, i: nat, j: nat, h1: nat, h2: nat)
    requires Inv(s) && s.enabled && s.piece1.None? && s.dataHide.Some?
    requires i < |s.faces| && j < |s.faces| && i != j
    requires Selectable(s, i) && Selectable(s, j) && s.pieces[i].name != s.pieces[j].name
    ensures Click(Click(s, i, h1).0, j, h2).1 == SecondSelected(Mismatch)
    ensures var r := Run(s, [Clicked(i, h1), Clicked(j, h2), ResolverFired]);
      && !r.pieces[i].checked && !r.pieces[j].checked && r.piece1.None? && r.piece2.None?
      && r.faces[i] == Placeholder(s.dataHide.value) && r.faces[j] == Placeholder(s.dataHide.value)
  {
    var s1 := Click(s, i, h1).0;
    var s2 := Click(s1, j, h2).0;
    var s3 := ResolverFires(s2);
    var es := [Clicked(i, h1), Clicked(j, h2), ResolverFired];
    assert Run(s, es) == Run(s1, es[1..]);
    assert Run(s1, es[1..]) == Run(s2, es[2..]);
    assert Run(s2, es[2..]) == Run(s3, []);
  }

  /** Clicking the piece already held in the first slot is rejected and changes nothing. */
  lemma ReselectRejected(s: State, i: nat, h1: nat, h2: nat)
    requires Inv(s) && s.enabled && s.piece1.None? && i < |s.faces| && Selectable(s, i)
    ensures Click(Click(s, i, h1).0, i, h2) == (Click(s, i, h1).0, Wrong)
  {
  }

  /** While a comparison is pending every click is ignored or rejected. */
  lemma FullSelectionRejects(s: State, i: nat, h: nat)
    requires Inv(s) && s.piece2.Some? && i < |s.faces|
    ensures Click(s, i, h).0 == s
    ensures Click(s, i, h).1 == Ignored || Click(s, i, h).1 == Wrong
  {
  }

  /** The resolvers' null checks always pass: a pending resolver implies both slots are filled. */
  lemma PendingResolverHasPair(s: State)
    requires Inv(s) && s.resolver.Some?
    ensures s.piece1.Some? && s.piece2.Some? && s.piece1 != s.piece2
  {
  }

  /** Input is opened by exactly two events: an intro step whose index has reached
      the end of the live list, and a restart of an empty board. */
  lemma InputOpensOnlyAtChainEnd(s: State, e: Event)
    requires Inv(s) && Deliverable(s, e) && !s.enabled
    ensures Step(s, e).enabled <==>
      (e.StepFired? && e.step >= |s.pieces|) || (e.RestartClicked? && e.names == [])
  {
  }

  /** The intro chain from step `k` when every requested asset arrives as soon as
      it is asked for, piece `m`'s asset delivered as `ds[m]`: step `k`, its request
      completing, step `k + 1`, ... The new request always sits at position `fetch`
      of the pending list. */
  function Chain(k: nat, ds: seq<Data>, fetch: nat): seq<Event>
    decreases |ds| - k
  {
    if k < |ds| then [StepFired(k), FetchCompleted(fetch, ds[k])] + Chain(k + 1, ds, fetch)
    else [StepFired(k)]
  }

  /** One link of the intro chain: step `k` fires on the live piece `k`, then the
      request it made completes, which schedules step `k + 1`. */
  lemma ChainLink(s: State, k: nat, data: Data)
    requires Inv(s) && s.hasList && k in s.steps && k < |s.pieces|
    ensures var r := Run(s, [StepFired(k), FetchCompleted(|s.fetches|, data)]);
      && Inv(r) && r.hasList && k + 1 in r.steps
      && r.pieces == s.pieces[k := Loaded(s.pieces[k], data)]
      && r.faces == s.faces[k := Hidden(s.dataHide, s.faces[k])]
      && r.fetches == s.fetches && r.piece1 == s.piece1 && r.piece2 == s.piece2
  {
    var j := |s.fetches|;
    var s1 := IntroStep(s, k);
    assert s1.fetches == s.fetches + [Fetch(Some(k), k + 1)];
    var s2 := FetchDone(s1, j, data);
    assert s1.fetches[..j] == s.fetches;
    var es := [StepFired(k), FetchCompleted(j, data)];
    assert Run(s, es) == Run(s1, es[1..]);
    assert Run(s1, es[1..]) == Run(s2, []);
  }

  /** What the intro chain from step `k` leaves behind in `r`, starting from `s`:
      input open, every face asset from `k` on cached as delivered in `ds` and those
      pieces face down, everything before `k` and the selection untouched. */
  ghost predicate ChainResult(s: State, k: nat, ds: seq<Data>, r: State)
    requires k <= |s.pieces| == |s.faces| == |ds|
  {
    && r.enabled && |r.pieces| == |s.pieces| && |r.faces| == |s.faces|
    && r.pieces[..k] == s.pieces[..k] && r.faces[..k] == s.faces[..k]
    && r.fetches == s.fetches && r.piece1 == s.piece1 && r.piece2 == s.piece2
    && (forall m :: k <= m < |s.pieces| ==>
          r.pieces[m] == Loaded(s.pieces[m], ds[m]) && r.faces[m] == Hidden(s.dataHide, s.faces[m]))
  }

  /** A link followed by the rest of the chain is the chain one step earlier. */
  lemma ChainCompose(s: State, s2: State, r: State, k: nat, ds: seq<Data>)
    requires k < |s.pieces| == |s.faces| == |ds|
    requires s2.pieces == s.pieces[k := Loaded(s.pieces[k], ds[k])]
    requires s2.faces == s.faces[k := Hidden(s.dataHide, s.faces[k])]
    requires s2.fetches == s.fetches && s2.piece1 == s.piece1 && s2.piece2 == s.piece2 && s2.dataHide == s.dataHide
    requires ChainResult(s2, k + 1, ds, r)
    ensures ChainResult(s, k, ds, r)
  {
    assert r.pieces[..k] == s.pieces[..k] && r.faces[..k] == s.faces[..k] by {
      assert r.pieces[..k + 1][..k] == r.pieces[..k];
      assert r.faces[..k + 1][..k] == r.faces[..k];
    }
    assert r.pieces[k] == s2.pieces[k] && r.faces[k] == s2.faces[k] by {
      assert r.pieces[..k + 1][k] == r.pieces[k];
      assert r.faces[..k + 1][k] == r.faces[k];
    }
  }

  /** Running the intro chain from step `k` to the end of the list opens input,
      caches every face asset from `k` on as delivered and leaves those pieces face down. */
  lemma {:induction false} ChainOpensInput(s: State, k: nat, ds: seq<Data>)
    requires Inv(s) && s.hasList && k in s.steps && k <= |s.pieces| == |ds|
    ensures ChainResult(s, k, ds, Run(s, Chain(k, ds, |s.fetches|)))
    decreases |s.pieces| - k
  {
    var n, j := |s.pieces|, |s.fetches|;
    if k < n {
      var link := [StepFired(k), FetchCompleted(j, ds[k])];
      var rest := Chain(k + 1, ds, j);
      ChainLink(s, k, ds[k]);
      var s2 := Run(s, link);
      RunAppend(s, link, rest);
      ChainOpensInput(s2, k + 1, ds);
      ChainCompose(s, s2, Run(s2, rest), k, ds);
    } else {
      assert Run(s, [StepFired(k)]) == Run(IntroStep(s, k), []);
    }
  }

  /** After `start()`, if every face asset arrives (piece `m`'s as `ds[m]`), the
      intro chain ends with input open, every piece holding its own delivered asset
      and face down, nothing matched and both slots empty. */
  lemma RestartThenIntroOpensInput(s: State, names: seq<string>, ds: seq<Data>)
    requires Inv(s) && |names| == |s.faces| == |ds| && names != []
    ensures var r := Run(Restart(s, names), [FetchCompleted(|s.fetches|, ds[0])] + Chain(1, ds, |s.fetches|));
      && r.enabled && r.piece1.None? && r.piece2.None? && r.resolver.None?
      && |r.pieces| == |names|
      && (forall m :: 0 <= m < |names| ==>
            && r.pieces[m].name == names[m] && !r.pieces[m].checked
            && r.pieces[m].dataShow == ds[m] && r.faces[m] == Hidden(s.dataHide, s.faces[m]))
  {
    var t := Restart(s, names);
    var n, j := |names|, |s.fetches|;
    assert t.fetches[j] == Fetch(Some(0), 1);
    var t1 := FetchDone(t, j, ds[0]);
    assert t.fetches[..j] == Discard(s.fetches);
    assert |t1.fetches| == j && 1 in t1.steps;
    assert Run(t, [FetchCompleted(j, ds[0])]) == Run(t1, []);
    RunAppend(t, [FetchCompleted(j, ds[0])], Chain(1, ds, j));
    ChainOpensInput(t1, 1, ds);
    var r := Run(t1, Chain(1, ds, j));
    assert r.pieces[0] == t1.pieces[0] && r.faces[0] == t1.faces[0] by {
      assert r.pieces[..1][0] == r.pieces[0];
      assert r.faces[..1][0] == r.faces[0];
    }
    forall m | 0 <= m < n
      ensures r.pieces[m].name == names[m] && !r.pieces[m].checked
      ensures r.pieces[m].dataShow == ds[m] && r.faces[m] == Hidden(s.dataHide, s.faces[m])
    {
      assert t1.pieces[m] == (if m == 0 then Loaded(t.pieces[0], ds[0]) else t.pieces[m]);
    }
  }

  /** There is no generation check: an intro step scheduled by the chain of an
      earlier list, firing after a restart, runs `interval` on the new list and
      opens input while the new chain is still waiting for its first asset. */
  lemma StaleStepOpensInputEarly(s: State, names: seq<string>)
    requires Inv(s) && |names| == |s.faces| && names != [] && |s.faces| in s.steps
    ensures var r := Step(Restart(s, names), StepFired(|s.faces|));
      r.enabled && r.fetches[|s.fetches|] == Fetch(Some(0), 1)
  {
  }
}
