/**
 * The game session as the page runs it: the `DataGame` record mutated in place by
 * the click handler, by `start()` and by the timer and loader callbacks. The
 * pieces of the current list are records in an array that `start()` rebuilds;
 * the board's image elements are an array of faces that outlives restarts. Every
 * method is proved to perform exactly the transition of `SessionModel`.
 */
module Game {

  import opened Wrappers
  import opened Tiles
  import M = SessionModel

  /** An asset request made by `Piece.start` whose callback has not run: the piece
      at `index` of `list` caches the asset, then the intro chain continues at
      `next`. A request whose `list` is no longer the live one is stale. */
  datatype Request = Request(list: array<PieceState>, index: nat, next: nat)

  /** `createPieceList`: one fresh, unmatched and enabled piece per element. */
  method CreatePieceList(names: seq<string>) returns (list: array<PieceState>)
    ensures fresh(list) && list[..] == seq(|names|, k requires 0 <= k < |names| => NewPiece(names[k]))
  {
    list := new PieceState[|names|];
    for k := 0 to |names|
      invariant forall m :: 0 <= m < k ==> list[m] == NewPiece(names[m])
    {
      list[k] := NewPiece(names[k]);
    }
  }

  /** `pieceList.forEach(piece => piece.disable())`. */
  method DisableAll(list: array<PieceState>)
    modifies list
    ensures list[..] == seq(list.Length, k requires 0 <= k < list.Length reads list => Disabled(old(list[k])))
  {
    for k := 0 to list.Length
      invariant forall m :: 0 <= m < list.Length ==> list[m] == if m < k then Disabled(old(list[m])) else old(list[m])
    {
      list[k] := Disabled(list[k]);
    }
  }

  class Session {
    /** What the `.piece` image elements of the page display, in board order. */
    const faces: array<Face>
    /** `Piece.dataHide`, as its load callback delivered it; the session is set up
        in that callback and the field never changes afterwards. */
    const dataHide: Data
    var enabled: bool
    var timeout: nat
    /** False while `pieceList` is null. */
    var hasList: bool
    var pieceList: array<PieceState>
    var piece1: Option<nat>
    var piece2: Option<nat>
    /** The resolver closure whose timer is pending, if any. */
    var resolver: Option<M.Outcome>
    /** Indices of the pending 50 ms intro-step timers. */
    var steps: multiset<nat>
    /** Asset requests whose callbacks have not run. */
    var fetches: seq<Request>

    /** The pending requests as the model sees them. */
    function Requests(): seq<M.Fetch>
      reads this
    {
      seq(|fetches|, j requires 0 <= j < |fetches| reads this =>
        M.Fetch(if fetches[j].list == pieceList then Some(fetches[j].index) else None, fetches[j].next))
    }

    /** The session as a value of the model. */
    function Abs(): M.State
      reads this, pieceList, faces
    {
      M.State(enabled, timeout, hasList, pieceList[..], piece1, piece2, faces[..], dataHide,
              resolver, steps, Requests())
    }

    /** Every request names a position inside its own list. */
    ghost predicate RequestsInRange()
      reads this
    {
      forall j :: 0 <= j < |fetches| ==> fetches[j].index < fetches[j].list.Length
    }

    ghost predicate Valid()
      reads this, pieceList, faces
    {
      RequestsInRange() && M.Inv(Abs())
    }

    /** The page's start-up once the placeholder has loaded: `createDataGame()`
        followed by the first `start()`. */
    constructor (faces: array<Face>, dataHide: Data, names: seq<string>)
      requires |names| == faces.Length
      modifies faces
      ensures this.faces == faces
      ensures Abs() == M.Init(old(faces[..]), dataHide, names)
      ensures Valid()
    {
      this.faces := faces;
      this.dataHide := dataHide;
      enabled := false;
      timeout := 0;
      hasList := false;
      pieceList := new PieceState[0];
      piece1 := None;
      piece2 := None;
      resolver := None;
      steps := multiset{};
      fetches := [];
      new;
      assert Abs() == M.CreateDataGame(old(faces[..]), dataHide);
      Restart(names);
    }

    /** The click handler bound to the element at `index`; `handle` is what
        `setTimeout` returns should the click schedule a resolver. */
    method Click(index: nat, handle: nat) returns (reaction: M.Reaction)
      requires Valid() && index < faces.Length
      modifies this, faces
      ensures (Abs(), reaction) == M.Click(old(Abs()), index, handle)
      ensures Valid()
    {
      ghost var s := Abs();
      if enabled && hasList {
        if !pieceList[index].checked {
          if piece1.None? {
            faces[index] := Shown(pieceList[index], faces[index]);
            piece1 := Some(index);
            reaction := M.FirstSelected;
            assert Abs() == M.Click(s, index, handle).0;
          } else if piece1 != Some(index) && piece2.None? {
            var outcome := if SameIcon(pieceList[piece1.value], pieceList[index]) then M.Match else M.Mismatch;
            faces[index] := Shown(pieceList[index], faces[index]);
            piece2 := Some(index);
            resolver := Some(outcome);
            timeout := handle;
            reaction := M.SecondSelected(outcome);
            assert Abs() == M.Click(s, index, handle).0;
          } else {
            reaction := M.Wrong;
          }
        } else {
          reaction := M.Wrong;
        }
      } else {
        reaction := M.Ignored;
      }
    }

    /** The closure of the 400 ms timer fires. */
    method MatchResolverFires()
      requires Valid() && resolver == Some(M.Match)
      modifies this, pieceList
      ensures Abs() == M.ResolverFires(old(Abs()))
      ensures Valid()
    {
      resolver := None;
      if piece1.Some? && piece2.Some? {
        pieceList[piece1.value] := Checked(pieceList[piece1.value]);
        piece1 := None;
        pieceList[piece2.value] := Checked(pieceList[piece2.value]);
        piece2 := None;
      }
    }

    /** The closure of the 800 ms timer fires. */
    method MismatchResolverFires()
      requires Valid() && resolver == Some(M.Mismatch)
      modifies this, faces
      ensures Abs() == M.ResolverFires(old(Abs()))
      ensures Valid()
    {
      resolver := None;
      if piece1.Some? && piece2.Some? {
        faces[piece1.value] := Hidden(dataHide, faces[piece1.value]);
        piece1 := None;
        faces[piece2.value] := Hidden(dataHide, faces[piece2.value]);
        piece2 := None;
      }
    }

    /** The loader completes the pending request `fetch` with `data`. */
    method FetchDone(fetch: nat, data: Data)
      requires Valid() && fetch < |fetches|
      modifies this, fetches[fetch].list
      ensures Abs() == M.FetchDone(old(Abs()), fetch, data)
      ensures Valid()
    {
      var request := fetches[fetch];
      request.list[request.index] := Loaded(request.list[request.index], data);
      fetches := fetches[..fetch] + fetches[fetch + 1..];
      steps := steps + multiset{request.next};
    }

    /** `interval(k)`, reading the list live: `start` on piece `k` requests its face
        asset and hides it, or, past the end of the list, input opens. */
    method Interval(k: nat)
      requires RequestsInRange() && hasList && pieceList.Length == faces.Length
      modifies this`enabled, this`fetches, faces
      ensures RequestsInRange()
      ensures Abs() == M.Interval(old(Abs()), k)
    {
      if k < pieceList.Length {
        fetches := fetches + [Request(pieceList, k, k + 1)];
        faces[k] := Hidden(dataHide, faces[k]);
      } else {
        enabled := true;
      }
    }

    /** The 50 ms timer of intro step `k` fires. */
    method IntroStep(k: nat)
      requires Valid() && k in steps
      modifies this, faces
      ensures Abs() == M.IntroStep(old(Abs()), k)
      ensures Valid()
    {
      ghost var s := Abs();
      steps := steps - multiset{k};
      ghost var t := s.(steps := s.steps - multiset{k});
      assert Abs() == t;
      Interval(k);
      assert Abs() == M.Interval(t, k);
    }

    /** The first half of `start()`: input closes, the pending resolver is cleared
        and a fresh list of disabled pieces replaces the old one. */
    method ResetList(names: seq<string>)
      requires RequestsInRange() && M.Inv(Abs()) && |names| == faces.Length
      modifies this`enabled, this`resolver, this`timeout, this`pieceList, this`hasList
      ensures RequestsInRange() && hasList && pieceList.Length == faces.Length
      ensures Abs() == old(Abs()).(enabled := false, resolver := None, timeout := 0, hasList := true,
                                   pieces := M.DisabledPieces(names), fetches := M.Discard(old(Abs()).fetches))
    {
      ghost var s := Abs();
      enabled := false;
      resolver := None;
      timeout := 0;
      var list := CreatePieceList(names);
      pieceList := list;
      hasList := true;
      DisableAll(pieceList);
      assert pieceList[..] == M.DisabledPieces(names);
      assert Requests() == M.Discard(s.fetches);
    }

    /** `start()`, with `names` the pair-name list dealt to the board. */
    method Restart(names: seq<string>)
      requires RequestsInRange() && M.Inv(Abs()) && |names| == faces.Length
      modifies this, faces
      ensures Abs() == M.Restart(old(Abs()), names)
      ensures Valid()
    {
      ghost var s := Abs();
      ResetList(names);
      ghost var t := Abs();
      Interval(0);
      piece1 := None;
      piece2 := None;
      assert Abs() == M.Interval(t, 0).(piece1 := None, piece2 := None);
    }

    /** `r` pressed while the pointer is over the link. */
    method PeekStart()
      requires Valid()
      modifies faces
      ensures Abs() == M.PeekStart(old(Abs()))
      ensures Valid()
    {
      if enabled {
        for i := 0 to pieceList.Length
          invariant forall m :: 0 <= m < faces.Length ==>
            faces[m] == if m < i && M.PeekTarget(pieceList[m], m, piece1, piece2)
                        then Shown(pieceList[m], old(faces[m])) else old(faces[m])
        {
          if M.PeekTarget(pieceList[i], i, piece1, piece2) {
            faces[i] := Shown(pieceList[i], faces[i]);
          }
        }
      }
    }

    /** `r` released. */
    method PeekEnd()
      requires Valid()
      modifies faces
      ensures Abs() == M.PeekEnd(old(Abs()))
      ensures Valid()
    {
      if hasList {
        for i := 0 to pieceList.Length
          invariant forall m :: 0 <= m < faces.Length ==>
            faces[m] == if m < i && M.PeekTarget(pieceList[m], m, piece1, piece2)
                        then Hidden(dataHide, old(faces[m])) else old(faces[m])
        {
          if M.PeekTarget(pieceList[i], i, piece1, piece2) {
            faces[i] := Hidden(dataHide, faces[i]);
          }
        }
      }
    }
  }
}
