/** `GameView`: the rules text rendering, the per-table card fetch, the sidebar and the choice of
    card viewer. */
module GameView {
  import opened Wrappers
  import opened Cards
  import opened Text
  import DeckView

  /** One rendered line of `renderMarkdownRules`. */
  datatype RuleLine =
    | H1(text: string)
    | H2(text: string)
    | H3(text: string)
    | Bullet(text: string)
    | Numbered(text: string)
    | Spacer
    | Paragraph(text: string)

  /** Classifies one line by the prefix of its trimmed text. */
  function ClassifyLine(line: string): RuleLine {
    ClassifyTrimmed(Trim(line))
  }

  /** Classifies a trimmed line by its prefix, in the source's order of tests. */
  function ClassifyTrimmed(t: string): RuleLine {
    if StartsWith(t, "# ") then H1(t[2..])
    else if StartsWith(t, "## ") then H2(t[3..])
    else if StartsWith(t, "### ") then H3(t[4..])
    else if StartsWith(t, "- ") then Bullet(t[2..])
    else if StartsWith(t, "1. ") then Numbered(t)
    else if t == "" then Spacer
    else Paragraph(t)
  }

  /** The trimmed line an element was rendered from: its marker put back in front of its text. */
  function Source(l: RuleLine): string {
    match l
    case H1(s) => "# " + s
    case H2(s) => "## " + s
    case H3(s) => "### " + s
    case Bullet(s) => "- " + s
    case Numbered(s) => s
    case Spacer => ""
    case Paragraph(s) => s
  }

  /** Classification loses nothing: putting the marker back gives the trimmed line. */
  lemma ClassifyLineLossless(line: string)
    ensures Source(ClassifyLine(line)) == Trim(line)
  {
    var t := Trim(line);
    assert ClassifyLine(line) == ClassifyTrimmed(t);
    if StartsWith(t, "# ") {
      assert ClassifyLine(line) == H1(t[2..]);
      StartsWithRest(t, "# ");
    } else if StartsWith(t, "## ") {
      assert ClassifyLine(line) == H2(t[3..]);
      StartsWithRest(t, "## ");
    } else if StartsWith(t, "### ") {
      assert ClassifyLine(line) == H3(t[4..]);
      StartsWithRest(t, "### ");
    } else if StartsWith(t, "- ") {
      assert ClassifyLine(line) == Bullet(t[2..]);
      StartsWithRest(t, "- ");
    }
  }

  /** The trimmed line starts with a heading or bullet marker. */
  predicate HasMarker(t: string) {
    StartsWith(t, "# ") || StartsWith(t, "## ") || StartsWith(t, "### ") || StartsWith(t, "- ")
  }

  /** Which element a line becomes, decided on the trimmed line: `# ` a level-1 heading,
      `## ` level 2, `### ` level 3, `- ` a bullet, `1. ` a numbered line kept whole, a blank
      line a spacer, anything else plain text. */
  lemma ClassifyLineSpec(line: string)
    ensures ClassifyLine(line).H1? <==> StartsWith(Trim(line), "# ")
    ensures ClassifyLine(line).H2? <==> StartsWith(Trim(line), "## ")
    ensures ClassifyLine(line).H3? <==> StartsWith(Trim(line), "### ")
    ensures ClassifyLine(line).Bullet? <==> StartsWith(Trim(line), "- ")
    ensures ClassifyLine(line).Numbered? <==> !HasMarker(Trim(line)) && StartsWith(Trim(line), "1. ")
    ensures ClassifyLine(line).Numbered? ==> ClassifyLine(line).text == Trim(line)
    ensures ClassifyLine(line).Spacer? <==> AllSpace(line)
    ensures ClassifyLine(line).Paragraph? <==>
      !HasMarker(Trim(line)) && !StartsWith(Trim(line), "1. ") && !AllSpace(line)
    ensures ClassifyLine(line).Paragraph? ==> ClassifyLine(line).text == Trim(line)
  {
    ClassifyTrimmedSpec(Trim(line));
  }

  /** The same classification stated on an already trimmed line. */
  lemma ClassifyTrimmedSpec(t: string)
    ensures ClassifyTrimmed(t).H1? <==> StartsWith(t, "# ")
    ensures ClassifyTrimmed(t).H2? <==> StartsWith(t, "## ")
    ensures ClassifyTrimmed(t).H3? <==> StartsWith(t, "### ")
    ensures ClassifyTrimmed(t).Bullet? <==> StartsWith(t, "- ")
    ensures ClassifyTrimmed(t).Numbered? <==> !HasMarker(t) && StartsWith(t, "1. ")
    ensures ClassifyTrimmed(t).Numbered? ==> ClassifyTrimmed(t).text == t
    ensures ClassifyTrimmed(t).Spacer? <==> t == ""
    ensures ClassifyTrimmed(t).Paragraph? <==> !HasMarker(t) && !StartsWith(t, "1. ") && t != ""
    ensures ClassifyTrimmed(t).Paragraph? ==> ClassifyTrimmed(t).text == t
  {
    MarkersExclusive(t);
  }

  /** A line starting with one heading marker does not start with a shorter one. */
  lemma MarkersExclusive(t: string)
    ensures StartsWith(t, "## ") ==> !StartsWith(t, "# ")
    ensures StartsWith(t, "### ") ==> !StartsWith(t, "# ") && !StartsWith(t, "## ")
  {
    if StartsWith(t, "## ") {
      assert t[1] == "## "[1];
    }
    if StartsWith(t, "### ") {
      assert t[1] == "### "[1] && t[2] == "### "[2];
    }
  }

  /** A heading marker with no text is trimmed to `#` and rendered as plain text. */
  lemma EmptyHeadingIsText()
    ensures ClassifyLine("# ") == Paragraph("#")
  {
    assert Trim("# ") == "#" by {
      assert TrimStart("# ") == "# ";
      assert TrimEnd("# ") == TrimEnd("#");
      assert TrimEnd("#") == "#";
    }
  }

  /** `renderMarkdownRules`: one element per `\n`-separated line. */
  function RenderRules(rules: string): (r: seq<RuleLine>)
    ensures |r| == multiset(rules)['\n'] + 1
    ensures forall i :: 0 <= i < |r| ==> r[i] == ClassifyLine(Split(rules, '\n')[i])
  {
    var lines := Split(rules, '\n');
    seq(|lines|, i requires 0 <= i < |lines| => ClassifyLine(lines[i]))
  }

  /** A `GameCardDefinition` row: which table backs one card type of the game. */
  datatype TableDescriptor = TableDescriptor(id: int, name: string, description: string, tableName: string)

  /** `fetch('/api/card-definitions/<table>')`: the parsed rows, or `None` when the response is
      not ok or the request throws. A parameter: the model does no I/O. */
  type Fetcher = CardTable -> Option<CardList>

  /** The fetch loop: tables are visited in order and only the two known tables are fetched;
      a table whose fetch fails gets no entry. */
  function FetchCardDefinitions(tables: seq<TableDescriptor>, fetch: Fetcher): map<string, CardList>
    decreases |tables|
  {
    if |tables| == 0 then map[]
    else
      var acc := FetchCardDefinitions(tables[..|tables| - 1], fetch);
      var name := tables[|tables| - 1].tableName;
      match ParseTableName(name)
      case None => acc
      case Some(table) =>
        (match fetch(table)
         case None => acc
         case Some(cards) => acc[name := cards])
  }

  /** A game lists `name` among its tables. */
  ghost predicate Lists(tables: seq<TableDescriptor>, name: string) {
    exists i :: 0 <= i < |tables| && tables[i].tableName == name
  }

  /** A table name has an entry exactly when the game lists it, it is one of the two known
      tables, and its fetch succeeded; the entry is the fetched rows. */
  lemma {:induction false} FetchCardDefinitionsSpec(tables: seq<TableDescriptor>, fetch: Fetcher, name: string)
    ensures name in FetchCardDefinitions(tables, fetch) <==>
      Lists(tables, name) && ParseTableName(name).Some? && fetch(ParseTableName(name).value).Some?
    ensures name in FetchCardDefinitions(tables, fetch) ==>
      FetchCardDefinitions(tables, fetch)[name] == fetch(ParseTableName(name).value).value
    decreases |tables|
  {
    if |tables| > 0 {
      var init := tables[..|tables| - 1];
      FetchCardDefinitionsSpec(init, fetch, name);
      if Lists(tables, name) && !Lists(init, name) {
        assert tables[|tables| - 1].tableName == name;
      }
      if Lists(init, name) {
        var i :| 0 <= i < |init| && init[i].tableName == name;
        assert tables[i].tableName == name;
      }
    }
  }

  /** A sidebar button is disabled when its table has no rows or no entry. */
  predicate SidebarDisabled(data: map<string, CardList>, tableName: string) {
    tableName !in data || data[tableName].Length() == 0
  }

  /** The button of a listed table is enabled exactly when the table is known, its fetch
      succeeded and returned at least one row. */
  lemma SidebarDisabledSpec(tables: seq<TableDescriptor>, fetch: Fetcher, name: string)
    requires Lists(tables, name)
    ensures SidebarDisabled(FetchCardDefinitions(tables, fetch), name) <==>
      ParseTableName(name).None?
      || fetch(ParseTableName(name).value).None?
      || fetch(ParseTableName(name).value).value.Length() == 0
  {
    FetchCardDefinitionsSpec(tables, fetch, name);
  }

  /** The viewer for a table: discovery for the discovery table, the token viewer otherwise. */
  datatype GameViewer = UseTokenViewer | UseDiscoveryViewer

  function ChooseViewer(tableName: string): GameViewer {
    if tableName == DiscoveryTableName then UseDiscoveryViewer else UseTokenViewer
  }

  /** The main area. */
  datatype MainPanel = RulesPanel | TableNotFound | NoCards(name: string) | CardsPanel(viewer: GameViewer, cards: CardList)

  function FindTable(tables: seq<TableDescriptor>, tableName: string): (r: Option<TableDescriptor>)
    ensures r.Some? ==> exists i :: 0 <= i < |tables| && tables[i] == r.value && FirstNamed(tables, tableName, i)
    ensures r.None? ==> !Lists(tables, tableName)
    decreases |tables|
  {
    if |tables| == 0 then None
    else if tables[0].tableName == tableName then
      assert FirstNamed(tables, tableName, 0);
      Some(tables[0])
    else
      var r := FindTable(tables[1..], tableName);
      assert forall i :: 1 <= i < |tables| ==> tables[i] == tables[1..][i - 1];
      if r.Some? then
        var i :| 0 <= i < |tables[1..]| && tables[1..][i] == r.value && FirstNamed(tables[1..], tableName, i);
        assert FirstNamed(tables, tableName, i + 1);
        r
      else r
  }

  /** `tables[i]` is the first table named `name`. */
  predicate FirstNamed(tables: seq<TableDescriptor>, name: string, i: int)
    requires 0 <= i < |tables|
  {
    tables[i].tableName == name && forall j :: 0 <= j < i ==> tables[j].tableName != name
  }

  function ShowMain(activeSection: string, tables: seq<TableDescriptor>, data: map<string, CardList>): MainPanel {
    if activeSection == "rules" then RulesPanel
    else
      match FindTable(tables, activeSection)
      case None => TableNotFound
      case Some(t) =>
        if t.tableName in data && data[t.tableName].Length() > 0
        then CardsPanel(ChooseViewer(t.tableName), data[t.tableName])
        else NoCards(t.name)
  }

  /** Cards are only ever shown for a known table, and the viewer chosen agrees with the deck
      page's dispatch for the same table name (the page's fallback never arises here). */
  lemma CardsPanelMatchesDeckDispatch(activeSection: string, tables: seq<TableDescriptor>, fetch: Fetcher)
    requires ShowMain(activeSection, tables, FetchCardDefinitions(tables, fetch)).CardsPanel?
    ensures ParseTableName(activeSection).Some?
    ensures ShowMain(activeSection, tables, FetchCardDefinitions(tables, fetch)).viewer == UseDiscoveryViewer
      <==> DeckView.RenderedPanels(Some(activeSection)) == [DeckView.DiscoveryPanel]
    ensures ShowMain(activeSection, tables, FetchCardDefinitions(tables, fetch)).viewer == UseTokenViewer
      <==> DeckView.RenderedPanels(Some(activeSection)) == [DeckView.TokenPanel]
  {
    var data := FetchCardDefinitions(tables, fetch);
    var t := FindTable(tables, activeSection).value;
    assert t.tableName == activeSection && activeSection in data;
    FetchCardDefinitionsSpec(tables, fetch, activeSection);
    DeckView.RenderedPanelsSpec(Some(activeSection));
  }
}
