/** The type card's render phase: a fixed 530x185 vector-image template filled
    with the resolved theme, the fetch result and the background image. */
module TypeRender {
  import opened Wrappers
  import opened Decimal
  import opened TypeAggregation

  /** Size and weight of one kind of text. */
  datatype TextMetrics = TextMetrics(size: string, weight: string)

  /** The colours of the resolved theme. */
  datatype ThemeDesign = ThemeDesign(title: string, icon: string, text: string, background: string, border: string)

  /** The text settings of the resolved theme: the card's base font, size and
      weight, then the title's and the rows' size and weight. */
  datatype ThemeText = ThemeText(font: string, size: string, weight: string, title: TextMetrics, text: TextMetrics)

  /** The fully resolved theme the template reads its attributes from. */
  datatype Theme = Theme(design: ThemeDesign, text: ThemeText)

  /** `n` blanks: the template's indentation. */
  function Spaces(n: nat): (s: string)
    ensures |s| == n && forall i :: 0 <= i < n ==> s[i] == ' '
  {
    if n == 0 then "" else Spaces(n - 1) + " "
  }

  /** `.join("")` on a list of strings. */
  function Join(parts: seq<string>): string {
    if parts == [] then "" else parts[0] + Join(parts[1..])
  }

  /** One `<text>` element of a row at horizontal offset `x`, on its own line. */
  function Cell(theme: Theme, x: string, content: string): string {
    "\n" + Spaces(28) + "<text x=\"" + x + "\" fill=\"" + theme.design.text
    + "\" font-size=\"" + theme.text.text.size
    + "\" font-weight=\"" + theme.text.text.weight + "\">" + content + "</text>"
  }

  /** The row of one bucket, drawn `y` units from the top: its name, its commit
      count, the bar `graph` draws for its percentage, and the percentage. */
  function TypeLine(theme: Theme, t: TypeObject, y: nat, graph: nat -> string): string {
    "\n" + Spaces(24) + "<g transform=\"translate(25, " + NatToString(y) + ")\">"
    + Cell(theme, "0", t.name)
    + Cell(theme, "90", NatToString(t.commits) + " commits")
    + Cell(theme, "180", graph(t.percent))
    + Cell(theme, "450", NatToString(t.percent) + "%")
    + "\n" + Spaces(24) + "</g>\n" + Spaces(20)
  }

  /** The buckets in the order the rows list them. */
  function Buckets(d: TypeData): seq<TypeObject> {
    [d.morning, d.daytime, d.evening, d.night]
  }

  /** The rows in closed form: row i sits at y = 60 + 30 * i. */
  function TypeLines(theme: Theme, d: TypeData, graph: nat -> string): (lines: seq<string>)
    ensures |lines| == 4
  {
    seq(4, i requires 0 <= i < 4 => TypeLine(theme, Buckets(d)[i], 60 + 30 * i, graph))
  }

  /** The row builder: `y` starts at 30 and grows by 30 before each row. */
  method GenerateTypeLines(theme: Theme, d: TypeData, graph: nat -> string) returns (lines: seq<string>)
    ensures lines == TypeLines(theme, d, graph)
    ensures lines == [TypeLine(theme, d.morning, 60, graph), TypeLine(theme, d.daytime, 90, graph),
                      TypeLine(theme, d.evening, 120, graph), TypeLine(theme, d.night, 150, graph)]
  {
    var y := 30;
    var rows := Buckets(d);
    lines := [];
    for i := 0 to |rows|
      invariant y == 30 + 30 * i
      invariant lines == TypeLines(theme, d, graph)[..i]
    {
      y := y + 30;
      lines := lines + [TypeLine(theme, rows[i], y, graph)];
    }
  }

  /** Joining four parts concatenates them in order. */
  lemma JoinFour(parts: seq<string>)
    requires |parts| == 4
    ensures Join(parts) == parts[0] + parts[1] + parts[2] + parts[3]
  {
    assert parts[1..][1..][1..][1..] == [];
    calc {
      Join(parts);
      parts[0] + Join(parts[1..]);
      parts[0] + (parts[1] + Join(parts[1..][1..]));
      parts[0] + (parts[1] + (parts[2] + Join(parts[1..][1..][1..])));
      parts[0] + (parts[1] + (parts[2] + (parts[3] + Join(parts[1..][1..][1..][1..]))));
    }
  }

  /** The rows joined: morning, daytime, evening and night, one after the
      other at y = 60, 90, 120 and 150. */
  lemma RowsInOrder(theme: Theme, d: TypeData, graph: nat -> string)
    ensures Join(TypeLines(theme, d, graph))
         == TypeLine(theme, d.morning, 60, graph) + TypeLine(theme, d.daytime, 90, graph)
          + TypeLine(theme, d.evening, 120, graph) + TypeLine(theme, d.night, 150, graph)
  {
    var lines := TypeLines(theme, d, graph);
    assert lines[0] == TypeLine(theme, d.morning, 60, graph);
    assert lines[1] == TypeLine(theme, d.daytime, 90, graph);
    assert lines[2] == TypeLine(theme, d.evening, 120, graph);
    assert lines[3] == TypeLine(theme, d.night, 150, graph);
    JoinFour(lines);
  }

  /** The opening `<svg>` tag with the fixed canvas, and the card's frame. */
  function Canvas(theme: Theme): string {
    "\n" + Spaces(12)
    + "<svg version=\"1.1\" xmlns=\"http://www.w3.org/2000/svg\" width=\"530\" height=\"185\" viewBox=\"0 0 530 185\" font-size=\""
    + theme.text.size + "\" font-family=\"" + theme.text.font + "\" font-weight=\"" + theme.text.weight + "\">"
    + "\n" + Spaces(16) + "<rect x=\"5\" y=\"5\" width=\"520\" height=\"175\" fill=\"" + theme.design.background
    + "\" stroke=\"" + theme.design.border + "\" stroke-width=\"1px\" rx=\"6px\" ry=\"6px\" />"
    + "\n" + Spaces(8)
  }

  /** The background image clipped to the left part of the card. */
  function BackgroundBlock(base64: string): string {
    Spaces(14) + "<clipPath id=\"background\">"
    + "\n" + Spaces(8) + "<rect x=\"5\" y=\"5\" width=\"390\" height=\"175\" rx=\"6\" />"
    + "\n" + Spaces(4) + "</clipPath>"
    + "\n" + Spaces(4)
    + "<image x=\"5\" y=\"5\" clip-path=\"url(#background)\" preserveAspectRatio=\"xMidYMid slice\" href=\"data:image/png;base64,"
    + base64 + "\" width=\"390\" height=\"175\" />"
  }

  /** What the template puts in the background slot: the block when an image
      was encoded, nothing otherwise. */
  function BackgroundSlot(base64: Option<string>): string {
    match base64
    case Some(b) => BackgroundBlock(b)
    case None => ""
  }

  /** The title line at y = 30, showing the label. */
  function Title(theme: Theme, kind: string): string {
    "\n" + Spaces(16) + "<text x=\"25\" y=\"30\" fill=\"" + theme.design.title
    + "\" font-size=\"" + theme.text.title.size + "\" font-weight=\"" + theme.text.title.weight + "\">"
    + kind + "</text>"
  }

  /** The closing `</svg>` tag. */
  function Closing(): string {
    "\n" + Spaces(12) + "\n" + Spaces(12) + "</svg>" + "\n" + Spaces(8)
  }

  /** Everything after the background slot: the title, the rows and the closing tag. */
  function Body(theme: Theme, d: TypeData, graph: nat -> string): string {
    Title(theme, d.kind) + "\n" + Spaces(16) + Join(TypeLines(theme, d, graph)) + Closing()
  }

  /** The whole card. */
  function Render(theme: Theme, d: TypeData, graph: nat -> string): string {
    Canvas(theme) + BackgroundSlot(d.base64) + Body(theme, d, graph)
  }

  /** Nothing after the background slot depends on the image. */
  lemma BodyIgnoresImage(theme: Theme, d: TypeData, graph: nat -> string, image: Option<string>)
    ensures Body(theme, d.(base64 := image), graph) == Body(theme, d, graph)
  {
    assert Buckets(d.(base64 := image)) == Buckets(d);
    assert TypeLines(theme, d.(base64 := image), graph) == TypeLines(theme, d, graph);
  }

  /** The card is laid out top to bottom as canvas, background slot, title at
      y = 30, then the morning, daytime, evening and night rows at y = 60, 90,
      120 and 150, then the closing tag. */
  lemma DocumentLayout(theme: Theme, d: TypeData, graph: nat -> string)
    ensures Render(theme, d, graph)
         == Canvas(theme) + BackgroundSlot(d.base64) + Title(theme, d.kind) + "\n" + Spaces(16)
          + TypeLine(theme, d.morning, 60, graph) + TypeLine(theme, d.daytime, 90, graph)
          + TypeLine(theme, d.evening, 120, graph) + TypeLine(theme, d.night, 150, graph)
          + Closing()
  {
    RowsInOrder(theme, d, graph);
    Regroup(Canvas(theme), BackgroundSlot(d.base64), Title(theme, d.kind), "\n", Spaces(16),
            Join(TypeLines(theme, d, graph)),
            TypeLine(theme, d.morning, 60, graph), TypeLine(theme, d.daytime, 90, graph),
            TypeLine(theme, d.evening, 120, graph), TypeLine(theme, d.night, 150, graph), Closing());
  }

  lemma Regroup(a: string, b: string, t1: string, t2: string, t3: string, j: string,
                r1: string, r2: string, r3: string, r4: string, e: string)
    requires j == r1 + r2 + r3 + r4
    ensures a + b + (t1 + t2 + t3 + j + e) == a + b + t1 + t2 + t3 + r1 + r2 + r3 + r4 + e
  {
  }

  /** Inserting `mid` between `head` and `tail` splits the shorter text at `|head|`. */
  lemma InsertAt(head: string, mid: string, tail: string)
    ensures |head| <= |head + tail|
    ensures head + mid + tail == (head + tail)[..|head|] + mid + (head + tail)[|head|..]
  {
    assert (head + tail)[..|head|] == head;
    assert (head + tail)[|head|..] == tail;
  }

  /** The card with a background image is the card without one with the
      clipped image inserted right after the canvas; the rest is unchanged. */
  lemma BackgroundOnlyWithImage(theme: Theme, d: TypeData, graph: nat -> string, b: string)
    ensures var k := |Canvas(theme)|;
      var plain := Render(theme, d.(base64 := None), graph);
      var framed := Render(theme, d.(base64 := Some(b)), graph);
      && k <= |plain|
      && framed == plain[..k] + BackgroundBlock(b) + plain[k..]
  {
    var head, tail := Canvas(theme), Body(theme, d, graph);
    BodyIgnoresImage(theme, d, graph, None);
    BodyIgnoresImage(theme, d, graph, Some(b));
    InsertAt(head, BackgroundBlock(b), tail);
  }

  /** The fetch and render phases run in order. With no classified commit the
      card fails as a whole and no image is produced. */
  method TypeCard(hours: seq<HourReading>, base64: Option<string>, theme: Theme, graph: nat -> string)
    returns (r: Result<string, AggregationError>)
    ensures r.Failure? <==> CountIn(hours, 0, 24) == 0
    ensures r.Success? ==>
              0 < BucketCounts(hours).Total() && r.value == Render(theme, Report(BucketCounts(hours), base64), graph)
  {
    var data := Summarize(hours, base64);
    match data
    case Failure(e) =>
      return Failure(e);
    case Success(d) =>
      r := Success(Render(theme, d, graph));
  }
}
