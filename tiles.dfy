/**
 * Value-level view of one tile of the memory game: the state a `Piece` object
 * holds and what its `<img>` element displays, with the effect of the piece's
 * operations on them.
 */
module Tiles {

  import opened Wrappers

  /** A data URL produced by the asset loader for an icon image. */
  type Url = string

  /** `Data`: what the asset loader hands its callback, a data URL or `null`. */
  type Data = Option<Url>

  /** What a tile's image element displays: its alt/title text and its src. */
  datatype Face = Face(alt: string, src: Url)

  /** The fields of one `Piece`: its icon name, whether it is matched, whether it is
      shown as enabled, and its face asset once that has loaded. */
  datatype PieceState = PieceState(name: string, checked: bool, enabled: bool, dataShow: Option<Url>)

  /** Icon name of the face-down placeholder image. */
  const HiddenName: string := "pergunta"

  /** Prefix `toogle` puts before the icon name in the alt and title text. */
  const IconPrefix: string := "icone "

  /** The icon name an element's alt text announces, read back from the text. */
  function IconName(f: Face): Option<string> {
    if IconPrefix <= f.alt then Some(f.alt[|IconPrefix|..]) else None
  }

  /** The face an element ends on after `toogle(name, data)`: it announces `name`
      and displays `data`. */
  function Toggled(name: string, data: Url): (r: Face)
    ensures IconName(r) == Some(name) && r.src == data
  {
    var r := Face(IconPrefix + name, data);
    assert r.alt[|IconPrefix|..] == name;
    r
  }

  /** The face-down face, drawn from the shared placeholder asset. */
  function Placeholder(dataHide: Url): (r: Face)
    ensures IconName(r) == Some(HiddenName) && r.src == dataHide
  {
    Toggled(HiddenName, dataHide)
  }

  /** Effect of `Piece.show` on the element's face: flipped to the piece's own icon,
      but only once that icon has loaded. */
  function Shown(p: PieceState, f: Face): (r: Face)
    ensures p.dataShow.Some? ==> IconName(r) == Some(p.name) && r.src == p.dataShow.value
    ensures p.dataShow.None? ==> r == f
  {
    match p.dataShow
    case Some(data) => Toggled(p.name, data)
    case None => f
  }

  /** Effect of `Piece.hide` on the element's face: flipped to the placeholder, but
      only once the placeholder has loaded. */
  function Hidden(dataHide: Data, f: Face): (r: Face)
    ensures dataHide.Some? ==> IconName(r) == Some(HiddenName) && r.src == dataHide.value
    ensures dataHide.None? ==> r == f
  {
    match dataHide
    case Some(data) => Placeholder(data)
    case None => f
  }

  /** A freshly constructed piece: the name it was dealt, unmatched, enabled,
      nothing loaded. */
  function NewPiece(name: string): (r: PieceState)
    ensures r.name == name && !r.checked && r.enabled && r.dataShow.None?
  {
    PieceState(name, false, true, None)
  }

  /** `Piece.equals`: two pieces pair up when their names are equal. */
  predicate SameIcon(p: PieceState, q: PieceState) {
    p.name == q.name
  }

  /** Effect of `Piece.check` on the piece: matched, and nothing else changes. */
  function Checked(p: PieceState): (r: PieceState)
    ensures r.checked && r.(checked := p.checked) == p
  {
    p.(checked := true)
  }

  /** Effect of `Piece.enable` on the piece: enabled, and nothing else changes. */
  function Enabled(p: PieceState): (r: PieceState)
    ensures r.enabled && r.(enabled := p.enabled) == p
  {
    p.(enabled := true)
  }

  /** Effect of `Piece.disable` on the piece: disabled, and nothing else changes. */
  function Disabled(p: PieceState): (r: PieceState)
    ensures !r.enabled && r.(enabled := p.enabled) == p
  {
    p.(enabled := false)
  }

  /** Effect of the asset callback of `Piece.startDataShow`: whatever the loader
      delivered is cached as the face asset, `null` included, and nothing else changes. */
  function Loaded(p: PieceState, data: Data): (r: PieceState)
    ensures r.dataShow == data && r.(dataShow := p.dataShow) == p
  {
    p.(dataShow := data)
  }

  /** `Piece.equals` is an equivalence: every piece pairs with itself, pairing is
      symmetric and transitive, and `check`, `enable`, `disable` and the asset
      callback never change whom a piece pairs with. */
  lemma SameIconIsEquivalence(p: PieceState, q: PieceState, t: PieceState, data: Data)
    ensures SameIcon(p, p)
    ensures SameIcon(p, q) ==> SameIcon(q, p)
    ensures SameIcon(p, q) && SameIcon(q, t) ==> SameIcon(p, t)
    ensures SameIcon(p, Checked(p)) && SameIcon(p, Enabled(p)) && SameIcon(p, Disabled(p)) && SameIcon(p, Loaded(p, data))
  {
  }

  /** Hiding undoes showing: once the placeholder has loaded, an element hidden
      after being shown displays the placeholder whatever it displayed before,
      and hiding twice is hiding once. */
  lemma HideUndoesShow(p: PieceState, h: Url, f: Face)
    ensures Hidden(Some(h), Shown(p, f)) == Placeholder(h)
    ensures Hidden(Some(h), Hidden(Some(h), f)) == Hidden(Some(h), f)
  {
  }

  /** A piece whose asset has loaded shows its own icon whatever its element
      displayed before; one whose asset has not loaded (or came back `null`)
      leaves the element as it was. */
  lemma ShowRevealsIcon(p: PieceState, f: Face, g: Face)
    ensures p.dataShow.Some? ==> Shown(p, f) == Shown(p, g) && Shown(p, f).src == p.dataShow.value
    ensures p.dataShow.None? ==> Shown(p, f) == f
  {
  }

  /** The alt text tells a shown icon from the placeholder, unless the icon is
      itself named like the placeholder. */
  lemma ShownDiffersFromPlaceholder(name: string, data: Url, h: Url)
    ensures Toggled(name, data).alt == Placeholder(h).alt <==> name == HiddenName
  {
    if Toggled(name, data).alt == Placeholder(h).alt {
      assert IconName(Toggled(name, data)) == IconName(Placeholder(h));
    }
  }

  /** `enable` undoes `disable` on a piece that was enabled, and neither touches
      the piece's name, match or asset. */
  lemma EnableUndoesDisable(p: PieceState)
    ensures p.enabled ==> Enabled(Disabled(p)) == p
    ensures !Disabled(p).enabled && Enabled(p).enabled
    ensures Disabled(p).(enabled := p.enabled) == p && Enabled(p).(enabled := p.enabled) == p
  {
  }
}
