/**
 * The logical canvas and the six named touch regions laid out by
 * `_landscape_image` and `_render_layout` (src/main.py), and the first-match
 * hit test shared by both touch loops. Only box coordinates are modelled;
 * what is drawn inside them is not.
 */
module Layout {
  import opened Wrappers
  import Calibration
  import TextFit

  /** An inclusive box `(x0, y0, x1, y1)`: it holds `(x, y)` when
      `x0 <= x <= x1` and `y0 <= y <= y1`. */
  datatype Box = Box(x0: int, y0: int, x1: int, y1: int)

  /** `Component`: a named touch region. */
  datatype Component = Component(name: string, box: Box)

  predicate Contains(b: Box, x: int, y: int)
  {
    b.x0 <= x <= b.x1 && b.y0 <= y <= b.y1
  }

  /** No point lies in both boxes. */
  ghost predicate Disjoint(a: Box, b: Box)
  {
    forall x, y :: !(Contains(a, x, y) && Contains(b, x, y))
  }

  /** The components' hit test: the name of the first component, in list
      order, whose box holds the point, or nothing when none does. */
  function HitTest(components: seq<Component>, x: int, y: int): (r: Option<string>)
    ensures r.None? <==> forall i :: 0 <= i < |components| ==> !Contains(components[i].box, x, y)
    ensures r.Some? ==> exists i :: 0 <= i < |components| && Contains(components[i].box, x, y)
                          && r.value == components[i].name
                          && forall j :: 0 <= j < i ==> !Contains(components[j].box, x, y)
  {
    if components == [] then None
    else if Contains(components[0].box, x, y) then Some(components[0].name)
    else
      var r := HitTest(components[1..], x, y);
      assert forall i :: 1 <= i < |components| ==> components[i] == components[1..][i - 1];
      r
  }

  /** When no two boxes overlap, a point in a component's box resolves to
      exactly that component. */
  lemma HitTestUnique(components: seq<Component>, k: nat, x: int, y: int)
    requires k < |components|
    requires forall i, j :: 0 <= i < j < |components| ==> Disjoint(components[i].box, components[j].box)
    requires Contains(components[k].box, x, y)
    ensures HitTest(components, x, y) == Some(components[k].name)
  {
  }

  /** The logical canvas `_landscape_image` allocates. */
  datatype Canvas = Canvas(width: int, height: int, rotated: bool)

  /** `_landscape_image`: a portrait panel is drawn on a landscape canvas with
      its dimensions swapped, and flagged to be rotated back for display. */
  function Landscape(panelWidth: int, panelHeight: int): (c: Canvas)
    ensures c.width >= c.height
    ensures c.rotated <==> panelWidth < panelHeight
    ensures c.rotated ==> c.width == panelHeight && c.height == panelWidth
    ensures !c.rotated ==> c.width == panelWidth && c.height == panelHeight
  {
    if panelWidth >= panelHeight then Canvas(panelWidth, panelHeight, false)
    else Canvas(panelHeight, panelWidth, true)
  }

  const Margin := 4
  const ButtonGap := 6
  const Names: seq<string> := ["Art", "Title", "Artist", "Play/Pause", "Next", "Like"]

  /** The glyph drawn in the play/pause button. */
  datatype Glyph = PauseGlyph | PlayGlyph

  /** What `_render_layout` draws apart from the pixels: the canvas, the
      fitted title and artist lines, whether album art or the crossed
      placeholder fills the left square, the play/pause glyph, and the
      components it returns. */
  datatype Rendered = Rendered(
    canvas: Canvas,
    title: string,
    artist: string,
    artShown: bool,
    playGlyph: Glyph,
    components: seq<Component>)

  /** The six component boxes on a canvas of the given size. */
  function Components(width: int, height: int): (cs: seq<Component>)
    ensures |cs| == 6
    ensures forall i :: 0 <= i < 6 ==> cs[i].name == Names[i]
  {
    var imageSize := height - 2 * Margin;
    var leftX0, leftY0 := Margin, Margin;
    var leftX1, leftY1 := leftX0 + imageSize, leftY0 + imageSize;
    var rightX0, rightX1 := leftX1 + Margin, width - Margin;
    var buttonsTop, buttonsBottom := Margin + 44, height - Margin;
    var buttonHeight := if buttonsBottom - buttonsTop > 1 then buttonsBottom - buttonsTop else 1;
    var buttonWidth := ButtonWidth(width, height);
    [ Component("Art", Box(leftX0, leftY0, leftX1, leftY1)),
      Component("Title", Box(rightX0, Margin, rightX1, Margin + 20)),
      Component("Artist", Box(rightX0, Margin + 22, rightX1, Margin + 38)),
      Component("Play/Pause", Box(rightX0, buttonsTop, rightX0 + buttonWidth, buttonsTop + buttonHeight)),
      Component("Next", Box(rightX0 + buttonWidth + ButtonGap, buttonsTop,
                            rightX0 + 2 * buttonWidth + ButtonGap, buttonsTop + buttonHeight)),
      Component("Like", Box(rightX0 + 2 * (buttonWidth + ButtonGap), buttonsTop,
                            rightX0 + 3 * buttonWidth + 2 * ButtonGap, buttonsTop + buttonHeight)) ]
  }

  /** `_render_layout` for a panel of the given physical size. `titleWidth`
      and `artistWidth` measure a string in the 18- and 12-point fonts. */
  function RenderLayout(
    panelWidth: int, panelHeight: int,
    titleWidth: string -> int, artistWidth: string -> int,
    title: string, artist: string, hasArt: bool, isPlaying: bool): (r: Rendered)
    ensures r.canvas == Landscape(panelWidth, panelHeight)
    ensures r.components == Components(r.canvas.width, r.canvas.height)
  {
    var canvas := Landscape(panelWidth, panelHeight);
    var rightWidth := RightWidth(canvas.width, canvas.height);
    Rendered(
      canvas,
      TextFit.Fitted(titleWidth, title, rightWidth),
      TextFit.Fitted(artistWidth, artist, rightWidth),
      hasArt,
      if isPlaying then PauseGlyph else PlayGlyph,
      Components(canvas.width, canvas.height))
  }

  /** Two boxes that a vertical or horizontal line separates, or of which one
      is empty, share no point. */
  predicate Apart(a: Box, b: Box)
  {
    || a.x1 < b.x0 || b.x1 < a.x0 || a.y1 < b.y0 || b.y1 < a.y0
    || a.x1 < a.x0 || a.y1 < a.y0 || b.x1 < b.x0 || b.y1 < b.y0
  }

  lemma ApartIsDisjoint(a: Box, b: Box)
    requires Apart(a, b)
    ensures Disjoint(a, b)
  {
  }

  /** The width of the right-hand column: from one margin past the art
      square to one margin before the right edge. */
  function RightWidth(width: int, height: int): int
  {
    (width - Margin) - (Margin + (height - 2 * Margin) + Margin)
  }

  /** The width `_render_layout` gives each button,
      `int((right_width - 2 * button_gap) / 3)`. */
  function ButtonWidth(width: int, height: int): int
  {
    Calibration.TruncDiv(RightWidth(width, height) - 2 * ButtonGap, 3)
  }

  /** On any landscape canvas the six components are pairwise disjoint, so
      the first-match hit test never has to break a tie. */
  lemma LayoutDisjoint(panelWidth: int, panelHeight: int)
    ensures var c := Landscape(panelWidth, panelHeight);
      var cs := Components(c.width, c.height);
      forall i, j :: 0 <= i < j < |cs| ==> Disjoint(cs[i].box, cs[j].box)
  {
    var c := Landscape(panelWidth, panelHeight);
    var cs := Components(c.width, c.height);
    var bw := ButtonWidth(c.width, c.height);
    assert bw >= -5;
    forall i, j | 0 <= i < j < |cs|
      ensures Disjoint(cs[i].box, cs[j].box)
    {
      ApartIsDisjoint(cs[i].box, cs[j].box);
    }
  }

  /** A touch inside any component's box on the laid-out canvas resolves to
      that component and to no other. */
  lemma LayoutHitTest(panelWidth: int, panelHeight: int, k: nat, x: int, y: int)
    requires k < 6
    requires var c := Landscape(panelWidth, panelHeight);
      Contains(Components(c.width, c.height)[k].box, x, y)
    ensures var c := Landscape(panelWidth, panelHeight);
      HitTest(Components(c.width, c.height), x, y) == Some(Names[k])
  {
    var c := Landscape(panelWidth, panelHeight);
    LayoutDisjoint(panelWidth, panelHeight);
    HitTestUnique(Components(c.width, c.height), k, x, y);
  }

  /** The button row: the three buttons share their top and bottom edges, are
      each `button_width` wide and are `button_gap` apart, left to right. */
  lemma ButtonRow(width: int, height: int)
    ensures var cs := Components(width, height);
      var bw := ButtonWidth(width, height);
      && cs[3].box.y0 == cs[4].box.y0 == cs[5].box.y0 == Margin + 44
      && cs[3].box.y1 == cs[4].box.y1 == cs[5].box.y1
      && cs[3].box.x1 - cs[3].box.x0 == bw
      && cs[4].box.x1 - cs[4].box.x0 == bw
      && cs[5].box.x1 - cs[5].box.x0 == bw
      && cs[4].box.x0 == cs[3].box.x1 + ButtonGap
      && cs[5].box.x0 == cs[4].box.x1 + ButtonGap
  {
  }

  /** The row ends inside the right column whenever the column is at least
      two gaps wide. */
  lemma ButtonsInsideColumn(width: int, height: int)
    requires RightWidth(width, height) >= 2 * ButtonGap
    ensures var cs := Components(width, height);
      cs[3].box.x0 == cs[1].box.x0 && cs[5].box.x1 <= cs[1].box.x1
  {
    var bw := ButtonWidth(width, height);
    assert 3 * bw <= RightWidth(width, height) - 2 * ButtonGap;
  }

  /** The album-art area is a square of side `height - 8` at the top left,
      ending one margin before the right column starts. */
  lemma ArtSquare(width: int, height: int)
    ensures var art := Components(width, height)[0].box;
      && art.x0 == Margin && art.y0 == Margin
      && art.x1 - art.x0 == art.y1 - art.y0 == height - 2 * Margin
      && art.x1 + Margin == Components(width, height)[1].box.x0
  {
  }

  /** Every box has `x0 < x1` and `y0 < y1` once the canvas is at least 9
      pixels high and the right column is wide enough for three one-pixel
      buttons. */
  lemma BoxesProper(width: int, height: int)
    requires height >= 9 && width >= height + 19
    ensures var cs := Components(width, height);
      forall i :: 0 <= i < 6 ==> cs[i].box.x0 < cs[i].box.x1 && cs[i].box.y0 < cs[i].box.y1
  {
    assert ButtonWidth(width, height) >= 1;
  }

  /** The component boxes depend only on the panel size, never on the title,
      the artist, the art or the play state. */
  lemma LayoutIgnoresContent(
    panelWidth: int, panelHeight: int,
    titleWidth: string -> int, artistWidth: string -> int,
    title1: string, artist1: string, hasArt1: bool, isPlaying1: bool,
    title2: string, artist2: string, hasArt2: bool, isPlaying2: bool)
    ensures RenderLayout(panelWidth, panelHeight, titleWidth, artistWidth, title1, artist1, hasArt1, isPlaying1).components
         == RenderLayout(panelWidth, panelHeight, titleWidth, artistWidth, title2, artist2, hasArt2, isPlaying2).components
  {
  }

  /** The 122 x 250 portrait panel: a 250 x 122 canvas, rotated, with a
      114-pixel art square and 37-pixel buttons. */
  lemma PortraitPanelLayout()
    ensures var c := Landscape(122, 250);
      && c == Canvas(250, 122, true)
      && Components(c.width, c.height) == [
           Component("Art", Box(4, 4, 118, 118)),
           Component("Title", Box(122, 4, 246, 24)),
           Component("Artist", Box(122, 26, 246, 42)),
           Component("Play/Pause", Box(122, 48, 159, 118)),
           Component("Next", Box(165, 48, 202, 118)),
           Component("Like", Box(208, 48, 245, 118))]
  {
  }
}
