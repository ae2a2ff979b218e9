/**
 * The game session of the memory game as a state machine over values: the
 * `DataGame` record, the pieces of the live list, the image elements of the
 * board, and the callbacks the browser still holds (the pending resolver timer,
 * pending intro-step timers and pending asset requests). Every asynchronous
 * callback is an event of its own, so each transition is one function.
 */
module SessionModel {

  import opened Wrappers
  import opened Tiles

  /** Which resolver closure the pending timer runs: 400 ms `check` or 800 ms `hide`. */
  datatype Outcome = Match | Mismatch

  /** An asset request made by `Piece.start` whose callback has not run yet.
      `target` is the index of the requesting piece in the live list, or None when
      that piece belongs to a list a restart has since discarded; `next` is the
      intro index the callback schedules 50 ms later. */
  datatype Fetch = Fetch(target: Option<nat>, next: nat)

  /** What a click did: nothing, the `wrong()` shake, or filling a selection slot. */
  datatype Reaction = Ignored | Wrong | FirstSelected | SecondSelected(outcome: Outcome)

  /** `DataGame` (enabled, timeout, pieceList, piece1, piece2), the image element of
      each board position, the shared placeholder asset, and the callbacks pending
      in the browser. `hasList` is false while `pieceList` is null; the slots hold
      indices into `pieces`. */
  datatype State = State(
    enabled: bool,
    timeout: nat,
    hasList: bool,
    pieces: seq<PieceState>,
    piece1: Option<nat>,
    piece2: Option<nat>,
    faces: seq<Face>,
    dataHide: Data,
    resolver: Option<Outcome>,
    steps: multiset<nat>,
    fetches: seq<Fetch>)

  /** The resolver a full selection schedules, decided by `Piece.equals`. */
  function Judge(p: PieceState, q: PieceState): (r: Outcome)
    ensures r == Match <==> p.name == q.name
  {
    if SameIcon(p, q) then Match else Mismatch
  }

  /** Position `i` holds a piece that is not yet matched. */
  predicate Selectable(s: State, i: nat) {
    i < |s.pieces| && !s.pieces[i].checked
  }

  /** Slot discipline and well-formedness of the session:
      the live list covers the board; without a list nothing is pending;
      each slot holds an unmatched piece, `piece2` only beside a different `piece1`;
      a resolver is pending exactly when both slots are filled, and it is the one
      `Piece.equals` chose; requests of live pieces point into the list. */
  predicate Inv(s: State) {
    && (s.hasList ==> |s.pieces| == |s.faces|)
    && (!s.hasList ==> s.pieces == [] && !s.enabled && s.steps == multiset{} && s.fetches == [])
    && (s.piece1.Some? ==> Selectable(s, s.piece1.value))
    && (s.piece2.Some? ==> s.piece1.Some? && s.piece2 != s.piece1 && Selectable(s, s.piece2.value))
    && s.resolver == (if s.piece2.Some? then Some(Judge(s.pieces[s.piece1.value], s.pieces[s.piece2.value])) else None)
    && (forall j :: 0 <= j < |s.fetches| && s.fetches[j].target.Some? ==> s.fetches[j].target.value < |s.pieces|)
  }

  /** `createDataGame()` on a board of `faces`, inside the callback that delivered
      the placeholder `dataHide`: input closed, no list, both slots empty, nothing
      pending, the board as it stands. */
  function CreateDataGame(faces: seq<Face>, dataHide: Data): (r: State)
    ensures Inv(r) && !r.enabled && !r.hasList
    ensures r.timeout == 0 && r.piece1.None? && r.piece2.None? && r.resolver.None?
    ensures r.faces == faces && r.dataHide == dataHide
  {
    State(false, 0, false, [], None, None, faces, dataHide, None, multiset{}, [])
  }

  /** The click handler of the element at `index`; `handle` is what `setTimeout`
      returns if the click schedules a resolver. */
  function Click(s: State, index: nat, handle: nat): (r: (State, Reaction))
    requires Inv(s) && index < |s.faces|
    ensures Inv(r.0)
    // the gate: nothing happens unless input is enabled and the list exists
    ensures r.1 == Ignored <==> !(s.enabled && s.hasList)
    // a rejected or ignored click changes nothing at all
    ensures r.1 == Ignored || r.1 == Wrong ==> r.0 == s
    // a matched piece is always rejected
    ensures s.enabled && s.hasList && s.pieces[index].checked ==> r.1 == Wrong
    // an empty first slot takes any unmatched piece
    ensures r.1 == FirstSelected <==> s.enabled && s.hasList && !s.pieces[index].checked && s.piece1.None?
    ensures r.1 == FirstSelected ==> r.0.piece1 == Some(index) && r.0.piece2.None?
    // the second slot takes only a different unmatched piece, and only while empty
    ensures r.1.SecondSelected? <==>
      s.enabled && s.hasList && !s.pieces[index].checked && s.piece1.Some? && s.piece1 != Some(index) && s.piece2.None?
    ensures r.1.SecondSelected? ==>
      && r.0.piece1 == s.piece1 && r.0.piece2 == Some(index) && r.0.timeout == handle
      && r.0.resolver == Some(r.1.outcome)
      && (r.1.outcome == Match <==> s.pieces[s.piece1.value].name == s.pieces[index].name)
    // a click never changes any piece, and flips at most the clicked element's face
    ensures r.0.pieces == s.pieces && r.0.enabled == s.enabled && |r.0.faces| == |s.faces|
    ensures forall k :: 0 <= k < |s.faces| && k != index ==> r.0.faces[k] == s.faces[k]
    ensures r.1 != Ignored && r.1 != Wrong ==> r.0.faces[index] == Shown(s.pieces[index], s.faces[index])
    // only the slots, the resolver, the timeout and the clicked element change,
    // and the timeout only when a resolver is scheduled
    ensures r.0.(piece1 := s.piece1, piece2 := s.piece2, resolver := s.resolver, timeout := s.timeout, faces := s.faces) == s
    ensures !r.1.SecondSelected? ==> r.0.timeout == s.timeout && r.0.resolver == s.resolver
  {
    if !(s.enabled && s.hasList) then (s, Ignored)
    else if s.pieces[index].checked then (s, Wrong)
    else if s.piece1.None? then
      (s.(piece1 := Some(index), faces := s.faces[index := Shown(s.pieces[index], s.faces[index])]), FirstSelected)
    else if s.piece1 != Some(index) && s.piece2.None? then
      var outcome := Judge(s.pieces[s.piece1.value], s.pieces[index]);
      (s.(piece2 := Some(index), faces := s.faces[index := Shown(s.pieces[index], s.faces[index])],
          resolver := Some(outcome), timeout := handle),
       SecondSelected(outcome))
    else (s, Wrong)
  }

  /** The pending resolver timer fires. Its closure acts only when both slots are
      filled: the match closure checks both pieces, the mismatch closure hides both;
      either way the slots take the `null` these calls return. */
  function ResolverFires(s: State): (r: State)
    requires Inv(s) && s.resolver.Some?
    ensures Inv(r)
    ensures r.piece1.None? && r.piece2.None? && r.resolver.None?
    // matched pieces stay matched; the pair becomes matched exactly on a match
    ensures |r.pieces| == |s.pieces|
    ensures forall k :: 0 <= k < |s.pieces| ==>
      && r.pieces[k].checked == (s.pieces[k].checked || (s.resolver == Some(Match) && (s.piece1 == Some(k) || s.piece2 == Some(k))))
      && r.pieces[k] == s.pieces[k].(checked := r.pieces[k].checked)
    // on a mismatch both elements turn face down, nothing else moves
    ensures |r.faces| == |s.faces|
    ensures forall k :: 0 <= k < |s.faces| ==>
      r.faces[k] == (if s.resolver == Some(Mismatch) && (s.piece1 == Some(k) || s.piece2 == Some(k))
                        && s.dataHide.Some?
                     then Placeholder(s.dataHide.value) else s.faces[k])
    ensures r.enabled == s.enabled && r.steps == s.steps && r.fetches == s.fetches && r.timeout == s.timeout
  {
    var t := s.(resolver := None);
    if s.piece1.Some? && s.piece2.Some? then
      var i, j := s.piece1.value, s.piece2.value;
      match s.resolver.value
      case Match =>
        t.(pieces := s.pieces[i := Checked(s.pieces[i])][j := Checked(s.pieces[j])], piece1 := None, piece2 := None)
      case Mismatch =>
        t.(faces := s.faces[i := Hidden(s.dataHide, s.faces[i])][j := Hidden(s.dataHide, s.faces[j])],
           piece1 := None, piece2 := None)
    else t
  }

  /** The asset request `fetch` completes with `data`: the requesting piece caches it
      (a discarded piece too, which nobody reads again) and the callback schedules
      intro step `next`. */
  function FetchDone(s: State, fetch: nat, data: Data): (r: State)
    requires Inv(s) && fetch < |s.fetches|
    ensures Inv(r)
    ensures r.fetches == s.fetches[..fetch] + s.fetches[fetch + 1..]
    ensures r.steps == s.steps + multiset{s.fetches[fetch].next}
    ensures |r.pieces| == |s.pieces|
    ensures forall k :: 0 <= k < |s.pieces| ==>
      r.pieces[k] == if s.fetches[fetch].target == Some(k) then Loaded(s.pieces[k], data) else s.pieces[k]
    ensures r.(pieces := s.pieces, fetches := s.fetches, steps := s.steps) == s
  {
    var f := s.fetches[fetch];
    var t := s.(fetches := s.fetches[..fetch] + s.fetches[fetch + 1..], steps := s.steps + multiset{f.next});
    match f.target
    case Some(k) => t.(pieces := s.pieces[k := Loaded(s.pieces[k], data)])
    case None => t
  }

  /** `Piece.start` on the live piece at `k`: request its face asset (whose callback
      continues the chain at `k + 1`) and hide it. */
  function StartPiece(s: State, k: nat): (r: State)
    requires k < |s.pieces| == |s.faces|
    // the piece's asset is requested, continuing the chain at `k + 1` ...
    ensures r.fetches == s.fetches + [Fetch(Some(k), k + 1)]
    // ... and its element turns face down, if the placeholder has loaded
    ensures |r.faces| == |s.faces|
    ensures forall m :: 0 <= m < |s.faces| && m != k ==> r.faces[m] == s.faces[m]
    ensures s.dataHide.Some? ==> r.faces[k] == Placeholder(s.dataHide.value)
    ensures s.dataHide.None? ==> r.faces[k] == s.faces[k]
    ensures r.(faces := s.faces, fetches := s.fetches) == s
  {
    s.(faces := s.faces[k := Hidden(s.dataHide, s.faces[k])],
       fetches := s.fetches + [Fetch(Some(k), k + 1)])
  }

  /** One call `interval(k)`: it reads the list live, so a chain started for an
      earlier list continues on the current one. */
  function Interval(s: State, k: nat): (r: State)
    requires |s.pieces| == |s.faces|
    // input opens exactly when the chain runs off the end of the list
    ensures r.enabled <==> s.enabled || k >= |s.pieces|
    ensures k < |s.pieces| ==> r.fetches == s.fetches + [Fetch(Some(k), k + 1)]
    ensures k >= |s.pieces| ==> r.fetches == s.fetches && r.faces == s.faces
    ensures r.(enabled := s.enabled, fetches := s.fetches, faces := s.faces) == s
  {
    if k < |s.pieces| then StartPiece(s, k) else s.(enabled := true)
  }

  /** The 50 ms timer of intro step `k` fires. */
  function IntroStep(s: State, k: nat): (r: State)
    requires Inv(s) && k in s.steps
    ensures Inv(r)
    // input opens exactly when the chain runs off the end of the list
    ensures r.enabled <==> s.enabled || k >= |s.pieces|
    ensures r.steps == s.steps - multiset{k}
    ensures k < |s.pieces| ==>
      r.fetches == s.fetches + [Fetch(Some(k), k + 1)] && r.faces == s.faces[k := Hidden(s.dataHide, s.faces[k])]
    ensures k >= |s.pieces| ==> r.fetches == s.fetches && r.faces == s.faces
    ensures r.(enabled := s.enabled, steps := s.steps, fetches := s.fetches, faces := s.faces) == s
  {
    Interval(s.(steps := s.steps - multiset{k}), k)
  }

  /** Requests of a discarded list: their pieces are no longer in the live list. */
  function Discard(fs: seq<Fetch>): (r: seq<Fetch>)
    ensures |r| == |fs|
    ensures forall j :: 0 <= j < |fs| ==> r[j] == Fetch(None, fs[j].next)
  {
    seq(|fs|, j requires 0 <= j < |fs| => Fetch(None, fs[j].next))
  }

  /** `createPieceList` followed by `forEach(piece => piece.disable())`. */
  function DisabledPieces(names: seq<string>): (r: seq<PieceState>)
    ensures |r| == |names|
    ensures forall k :: 0 <= k < |names| ==>
      r[k].name == names[k] && !r[k].checked && !r[k].enabled && r[k].dataShow.None?
  {
    seq(|names|, k requires 0 <= k < |names| => Disabled(NewPiece(names[k])))
  }

  /** `start()`, with `names` the pair-name list dealt to the board. */
  function Restart(s: State, names: seq<string>): (r: State)
    requires Inv(s) && |names| == |s.faces|
    ensures Inv(r) && r.hasList
    ensures r.enabled <==> names == []
    ensures r.timeout == 0 && r.resolver.None? && r.piece1.None? && r.piece2.None?
    ensures |r.pieces| == |names|
    ensures forall k :: 0 <= k < |names| ==>
      r.pieces[k].name == names[k] && !r.pieces[k].checked && !r.pieces[k].enabled && r.pieces[k].dataShow.None?
    // steps of earlier chains stay pending; their requests now belong to no live piece
    ensures r.steps == s.steps
    ensures names != [] ==>
      r.fetches == Discard(s.fetches) + [Fetch(Some(0), 1)] && r.faces == s.faces[0 := Hidden(s.dataHide, s.faces[0])]
    ensures names == [] ==> r.fetches == Discard(s.fetches) && r.faces == s.faces
    ensures r.dataHide == s.dataHide
  {
    var t := s.(enabled := false, resolver := None, timeout := 0, hasList := true,
                pieces := DisabledPieces(names), fetches := Discard(s.fetches));
    Interval(t, 0).(piece1 := None, piece2 := None)
  }

  /** The session as it exists once `start()` first returns. */
  function Init(faces: seq<Face>, dataHide: Data, names: seq<string>): (r: State)
    requires |names| == |faces|
    ensures Inv(r) && r.hasList && r.steps == multiset{}
    ensures names != [] ==> r.fetches == [Fetch(Some(0), 1)] && !r.enabled
  {
    Restart(CreateDataGame(faces, dataHide), names)
  }

  /** The filter of the easter egg handlers on the piece `p` at position `i`:
      unmatched and in neither slot. */
  predicate PeekTarget(p: PieceState, i: nat, piece1: Option<nat>, piece2: Option<nat>) {
    !p.checked && piece1 != Some(i) && piece2 != Some(i)
  }

  /** Position `i` of the live list passes the easter egg's filter. */
  predicate Peekable(s: State, i: nat) {
    i < |s.pieces| && PeekTarget(s.pieces[i], i, s.piece1, s.piece2)
  }

  /** The `r` key goes down while the pointer is over the link: with input
      enabled, every peekable piece is shown. */
  function PeekStart(s: State): (r: State)
    requires Inv(s)
    ensures r.(faces := s.faces) == s && |r.faces| == |s.faces|
    ensures forall i :: 0 <= i < |s.faces| && !(s.enabled && Peekable(s, i)) ==> r.faces[i] == s.faces[i]
    ensures forall i :: 0 <= i < |s.faces| && s.enabled && Peekable(s, i) && s.pieces[i].dataShow.Some? ==>
      r.faces[i] == Toggled(s.pieces[i].name, s.pieces[i].dataShow.value)
    // `show` leaves an element whose asset has not loaded as it is
    ensures forall i :: 0 <= i < |s.faces| && i < |s.pieces| && s.pieces[i].dataShow.None? ==> r.faces[i] == s.faces[i]
  {
    if s.enabled then
      s.(faces := seq(|s.faces|, i requires 0 <= i < |s.faces| =>
                        if Peekable(s, i) then Shown(s.pieces[i], s.faces[i]) else s.faces[i]))
    else s
  }

  /** The `r` key goes up: every peekable piece is hidden again. Without a list the
      handler throws before doing anything. */
  function PeekEnd(s: State): (r: State)
    requires Inv(s)
    ensures r.(faces := s.faces) == s && |r.faces| == |s.faces|
    ensures forall i :: 0 <= i < |s.faces| && !(Peekable(s, i) && s.dataHide.Some?) ==> r.faces[i] == s.faces[i]
    ensures forall i :: 0 <= i < |s.faces| && Peekable(s, i) && s.dataHide.Some? ==> r.faces[i] == Placeholder(s.dataHide.value)
  {
    if s.hasList then
      s.(faces := seq(|s.faces|, i requires 0 <= i < |s.faces| =>
                        if Peekable(s, i) then Hidden(s.dataHide, s.faces[i]) else s.faces[i]))
    else s
  }

  /** Everything that can happen to a running session. */
  datatype Event =
    | Clicked(index: nat, handle: nat)
    | ResolverFired
    | FetchCompleted(fetch: nat, data: Data)
    | StepFired(step: nat)
    | RestartClicked(names: seq<string>)
    | PeekPressed
    | PeekReleased

  /** The event can occur in `s`: a click lands on a board element, only a pending
      timer or request can fire, and a restart deals one name per element. */
  predicate Deliverable(s: State, e: Event) {
    match e
    case Clicked(index, _) => index < |s.faces|
    case ResolverFired => s.resolver.Some?
    case FetchCompleted(fetch, _) => fetch < |s.fetches|
    case StepFired(k) => k in s.steps
    case RestartClicked(names) => |names| == |s.faces|
    case PeekPressed => true
    case PeekReleased => true
  }

  function Step(s: State, e: Event): (r: State)
    requires Inv(s) && Deliverable(s, e)
    ensures Inv(r) && |r.faces| == |s.faces| && r.dataHide == s.dataHide && (s.hasList ==> r.hasList)
  {
    match e
    case Clicked(index, handle) => Click(s, index, handle).0
    case ResolverFired => ResolverFires(s)
    case FetchCompleted(fetch, data) => FetchDone(s, fetch, data)
    case StepFired(k) => IntroStep(s, k)
    case RestartClicked(names) => Restart(s, names)
    case PeekPressed => PeekStart(s)
    case PeekReleased => PeekEnd(s)
  }

  /** The session after the events `es`; an event that cannot occur where it is
      listed is dropped. */
  function Run(s: State, es: seq<Event>): (r: State)
    requires Inv(s)
    ensures Inv(r) && |r.faces| == |s.faces| && r.dataHide == s.dataHide && (s.hasList ==> r.hasList)
    decreases |es|
  {
    if es == [] then s
    else Run(if Deliverable(s, es[0]) then Step(s, es[0]) else s, es[1..])
  }
}
