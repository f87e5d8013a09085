/**
 * The cave-survey report: a table of contents linking every surveyed stage, then per
 * stage a caption with its Japanese name and seed range followed by the tables its
 * survey keys call for.  Stages are taken in the order the report data lists them;
 * the first failure anywhere (a missing key, a failed assertion, an unknown stage)
 * ends the whole report.
 */
module CaveReport {
  import opened Results
  import opened Text
  import opened SurveyKeys
  import opened RowspanTable
  import opened ReportGrids

  /** A trial's result map as the report data holds it: key texts with counts, in document order. */
  type Entries = seq<(string, int)>

  /** One stage of the report data: its code name (`FC-7`), Japanese name and survey trial. */
  datatype Stage = Stage(name: string, jpName: string, seed: int, num: int, result: Entries)

  /** A piece of a stage's section: a line of text, a vertical gap, or a table. */
  datatype Part = Note(text: string) | Margin | Chart(sheet: Sheet)

  /** A stage's section: its anchor id, its bold caption and its parts. */
  datatype Section = Section(anchor: string, caption: string, parts: seq<Part>)

  /** The table of contents as (link, text) pairs, then the sections. */
  datatype Report = Report(contents: seq<(string, string)>, sections: seq<Section>)

  // ---------------------------------------------------------------- reading the result map

  /** A mapping read from the data never holds a key twice. */
  predicate DistinctKeys(result: Entries) {
    forall i, j :: 0 <= i < j < |result| ==> result[i].0 != result[j].0
  }

  /** The count stored under `key`, if there is one. */
  function Find(result: Entries, key: string): (r: Option<int>)
    ensures r.Some? <==> exists i :: 0 <= i < |result| && result[i].0 == key
    ensures r.Some? ==> exists i :: 0 <= i < |result| && result[i] == (key, r.value)
  {
    if result == [] then None
    else if result[0].0 == key then Some(result[0].1)
    else
      assert forall i :: 1 <= i < |result| ==> result[i] == result[1..][i - 1];
      Find(result[1..], key)
  }

  /** In a mapping without repeated keys, every entry is found under its own key. */
  lemma {:induction false} FindEntry(result: Entries, i: nat)
    requires DistinctKeys(result) && i < |result|
    ensures Find(result, result[i].0) == Some(result[i].1)
    decreases i
  {
    if i > 0 {
      var tail := result[1..];
      assert DistinctKeys(tail) by {
        forall a, b | 0 <= a < b < |tail| ensures tail[a].0 != tail[b].0 {
          assert tail[a] == result[a + 1] && tail[b] == result[b + 1];
        }
      }
      FindEntry(tail, i - 1);
      assert tail[i - 1] == result[i];
    }
  }

  /** `result[key]`: a missing key is a KeyError naming it. */
  function Read(result: Entries, key: string): (r: Result<int>)
    ensures r.Ok? <==> exists i :: 0 <= i < |result| && result[i].0 == key
    ensures r.Err? ==> r.error == KeyError(key)
    ensures r.Ok? ==> r.value == ReadOr(result, key)
  {
    match Find(result, key)
    case Some(n) => Ok(n)
    case None => Err(KeyError(key))
  }

  /** `result.get(key, 0)`. */
  function ReadOr(result: Entries, key: string): int {
    match Find(result, key)
    case Some(n) => n
    case None => 0
  }

  /** The sum of all counts. */
  function Values(result: Entries): int {
    if result == [] then 0 else result[0].1 + Values(result[1..])
  }

  // ---------------------------------------------------------------- key texts

  /** The text of a flag as the survey counter writes it. */
  function FlagText(b: bool): string {
    if b then "true" else "false"
  }

  /** `{field: true}` / `{field: false}`, as the report spells the key. */
  function FlagKey(field: string, b: bool): string {
    "{" + field + ": " + FlagText(b) + "}"
  }

  /** `{field: n}`. */
  function NumberKey(field: string, n: int): string {
    "{" + field + ": " + IntText(n) + "}"
  }

  /** `{room: R, mitites: M}`. */
  function RoomKey(room: string, mitites: int): string {
    "{" + "room" + ": " + room + ", " + "mitites" + ": " + IntText(mitites) + "}"
  }

  /** `{eggs: N, elec: B}`. */
  function EggKey(eggs: int, elec: bool): string {
    "{" + "eggs" + ": " + IntText(eggs) + ", " + "elec" + ": " + FlagText(elec) + "}"
  }

  /** The report's spelling of a one-field key is the canonical text the survey counter writes. */
  lemma OneFieldSpellings(field: string, b: bool, n: int)
    ensures FlagKey(field, b) == KeyText([Field(field, Flag(b))])
    ensures NumberKey(field, n) == KeyText([Field(field, Number(n))])
  {
  }

  /** The canonical text of a two-field key, written out. */
  lemma TwoFieldText(a: string, u: Value, b: string, v: Value)
    ensures KeyText([Field(a, u), Field(b, v)]) == "{" + a + ": " + ValueText(u) + ", " + b + ": " + ValueText(v) + "}"
  {
    TwoFieldTexts(Field(a, u), Field(b, v));
    TwoJoined(FieldText(Field(a, u)), FieldText(Field(b, v)), ", ");
    Regrouped(a + ": " + ValueText(u), b + ": " + ValueText(v));
  }

  lemma TwoFieldTexts(f: Field, g: Field)
    ensures FieldTexts([f, g]) == [FieldText(f), FieldText(g)]
  {
  }

  lemma TwoJoined(x: string, y: string, sep: string)
    ensures Join([x, y], sep) == x + sep + y
  {
    assert [x, y][1..] == [y];
  }

  lemma Regrouped(x: string, y: string)
    ensures "{" + (x + ", " + y) + "}" == "{" + x + ", " + y + "}"
  {
  }

  /** The same for the two-field key of the room stage. */
  lemma RoomKeySpelling(room: string, n: int)
    ensures RoomKey(room, n) == KeyText([Field("room", Word(room)), Field("mitites", Number(n))])
  {
    TwoFieldText("room", Word(room), "mitites", Number(n));
  }

  /** The same for the two-field key of the egg and spider stage. */
  lemma EggKeySpelling(eggs: int, b: bool)
    ensures EggKey(eggs, b) == KeyText([Field("eggs", Number(eggs)), Field("elec", Flag(b))])
  {
    TwoFieldText("eggs", Number(eggs), "elec", Flag(b));
  }

  /**
   * The YAML reader the report re-reads key texts with, from a key text to the mapping
   * it denotes (`None` when it does not read as one).
   */
  type Loader = string -> Option<Key>

  /** The reader gives back every well-formed key from its canonical text. */
  ghost predicate ReadsKeys(load: Loader) {
    forall key :: WellFormed(key) ==> load(KeyText(key)) == Some(key)
  }

  /** The flow-mapping reader for the canonical key syntax is such a reader. */
  lemma ParseKeyReadsKeys()
    ensures ReadsKeys(ParseKey)
  {
    forall key | WellFormed(key) ensures ParseKey(KeyText(key)) == Some(key) {
      KeyTextRoundTrip(key);
    }
  }

  // ---------------------------------------------------------------- names and captions

  /**
   * The stage's display name: the Japanese name, followed by ` (地下N階)` when the code
   * name has a '-', N being the integer after the first '-' (a ValueError when that is
   * not an integer).
   */
  function DisplayName(name: string, jpName: string): (r: Result<string>)
    ensures '-' !in name ==> r == Ok(jpName)
    ensures r.Err? ==> r.error == ValueError
    ensures r.Err? ==> '-' in name
  {
    if '-' !in name then Ok(jpName)
    else
      SplitAtSeparator(name, '-');
      match ParseInt(Split(name, '-')[1])
      case None => Err(ValueError)
      case Some(n) => Ok(jpName + " (地下" + IntText(n) + "階)")
  }

  /** A code name `AREA-N` names sublevel N. */
  lemma SublevelName(area: string, sublevel: nat, jpName: string)
    requires '-' !in area
    ensures DisplayName(area + "-" + IntText(sublevel), jpName) == Ok(jpName + " (地下" + IntText(sublevel) + "階)")
  {
    var text := IntText(sublevel);
    assert '-' !in text by {
      forall k | 0 <= k < |text| ensures text[k] != '-' {
        assert DigitValue(text[k]) < 10;
      }
    }
    SplitFirst(area, '-', text);
    assert area + "-" + text == area + ['-'] + text;
    SplitNone(text, '-');
    IntTextRoundTrip(sublevel);
  }

  /** The bold caption: display name and the first and last seed of the trial, in `%08X`. */
  function Caption(stage: Stage): Result<string> {
    var name :- DisplayName(stage.name, stage.jpName);
    Ok(name + " (seed = 0x" + PyHex08(stage.seed) + ", ..., 0x" + PyHex08(stage.seed + stage.num - 1) + ")")
  }

  // ---------------------------------------------------------------- section parts

  /** A titled table: the title line, then the table. */
  function Titled(title: string, table: Result<Sheet>): (r: Result<seq<Part>>)
    ensures r.Ok? <==> table.Ok?
    ensures table.Err? ==> r == Err(table.error)
    ensures r.Ok? ==> r.value == [Note(title), Chart(table.value)]
  {
    if table.Err? then Err(table.error) else Ok([Note(title), Chart(table.value)])
  }

  /**
   * Parts followed by a spacer and a second titled table; the first parts' error wins,
   * as the report builds them first.
   */
  function Followed(first: Result<seq<Part>>, title: string, table: Result<Sheet>): (r: Result<seq<Part>>)
    ensures r.Ok? <==> first.Ok? && table.Ok?
    ensures first.Err? ==> r == Err(first.error)
    ensures first.Ok? && table.Err? ==> r == Err(table.error)
    ensures r.Ok? ==> r.value == first.value + [Margin, Note(title), Chart(table.value)]
  {
    if first.Err? then Err(first.error)
    else if table.Err? then Err(table.error)
    else Ok(first.value + [Margin, Note(title), Chart(table.value)])
  }

  // ---------------------------------------------------------------- yes/no stages

  /** A yes/no stage: the counts of `{field: true}` and `{field: false}` as a yes/no table. */
  function YesNoParts(title: string, field: string, result: Entries): (r: Result<seq<Part>>)
    ensures Find(result, FlagKey(field, true)).None? ==> r == Err(KeyError(FlagKey(field, true)))
    ensures Find(result, FlagKey(field, true)).Some? && Find(result, FlagKey(field, false)).None?
      ==> r == Err(KeyError(FlagKey(field, false)))
    ensures Find(result, FlagKey(field, true)).Some? && Find(result, FlagKey(field, false)).Some?
      ==> r == Titled(title, TrueFalseTable([Find(result, FlagKey(field, true)).value, Find(result, FlagKey(field, false)).value]))
  {
    var yes := Read(result, FlagKey(field, true));
    if yes.Err? then Err(yes.error)
    else
      var no := Read(result, FlagKey(field, false));
      if no.Err? then Err(no.error)
      else Titled(title, TrueFalseTable([yes.value, no.value]))
  }

  // ---------------------------------------------------------------- the room cross-tab

  /** A grid given column by column, every column `height` long. */
  function FromColumns(cols: seq<seq<Cell>>, height: nat): (g: Grid)
    requires forall c :: 0 <= c < |cols| ==> |cols[c]| == height
    ensures |g| == height && forall r :: 0 <= r < height ==> |g[r]| == |cols|
  {
    seq(height, r requires 0 <= r < height => seq(|cols|, c requires 0 <= c < |cols| => cols[c][r]))
  }

  const RoomLabels: seq<Cell> := [Label("地形＼タマゴムシ"),
    Label("丸部屋"), Down, Down, Label("丸部屋 (S字)"), Down, Down,
    Label("三日月"), Down, Down, Label("合計"), Down, Down]

  /** The count of sublevels with room `room` and `mitites` sets, as the report reads it. */
  function RoomCount(result: Entries, room: string, mitites: int): int {
    ReadOr(result, RoomKey(room, mitites))
  }

  /** The three rooms' counts for `mitites` sets, added. */
  function RoomsTotal(result: Entries, mitites: int): int {
    RoomCount(result, "circle", mitites) + RoomCount(result, "circle_s", mitites) + RoomCount(result, "crescent", mitites)
  }

  /**
   * Column `mitites` of the cross-tab: the number of sets, then per room the tuple of
   * its count, then the tuple of the three rooms' sum; keys are read and tuples built
   * in the builder's order.
   */
  function RoomColumn(result: Entries, num: int, mitites: int): (r: Result<seq<Cell>>)
    ensures r.Ok? ==> |r.value| == 13 && r.value[0] == Count(mitites)
    ensures r.Ok? ==> r.value[1] == Count(RoomCount(result, "circle", mitites))
    ensures r.Ok? ==> r.value[4] == Count(RoomCount(result, "circle_s", mitites))
    ensures r.Ok? ==> r.value[7] == Count(RoomCount(result, "crescent", mitites))
    ensures r.Ok? ==> r.value[10] == Count(RoomsTotal(result, mitites))
    ensures Find(result, RoomKey("circle", mitites)).None? ==> r == Err(KeyError(RoomKey("circle", mitites)))
  {
    var a := RoomTuple(result, "circle", mitites, num);
    if a.Err? then Err(a.error)
    else
      var b := RoomTuple(result, "circle_s", mitites, num);
      if b.Err? then Err(b.error)
      else
        var c := RoomTuple(result, "crescent", mitites, num);
        if c.Err? then Err(c.error)
        else
          var d := CountProbTuple(RoomsTotal(result, mitites), num);
          if d.Err? then Err(d.error)
          else Ok(Stack(Count(mitites), a.value, b.value, c.value, d.value))
  }

  /** A cross-tab column: its caption, then four three-cell tuples one after another. */
  function Stack(head: Cell, a: seq<Cell>, b: seq<Cell>, c: seq<Cell>, d: seq<Cell>): (col: seq<Cell>)
    requires |a| == |b| == |c| == |d| == 3
    ensures |col| == 13 && col[0] == head
    ensures forall k :: 0 <= k < 3 ==> col[1 + k] == a[k] && col[4 + k] == b[k] && col[7 + k] == c[k] && col[10 + k] == d[k]
  {
    [head] + a + b + c + d
  }

  /** One room's tuple: its count read from the result, with its share of the trial. */
  function RoomTuple(result: Entries, room: string, mitites: int, num: int): (r: Result<seq<Cell>>)
    ensures r.Ok? ==> |r.value| == 3 && r.value[0] == Count(RoomCount(result, room, mitites))
    ensures Find(result, RoomKey(room, mitites)).None? ==> r == Err(KeyError(RoomKey(room, mitites)))
  {
    var n := Read(result, RoomKey(room, mitites));
    if n.Err? then Err(n.error) else CountProbTuple(n.value, num)
  }

  /**
   * The total column, from the three rooms' counts over both numbers of sets: per room
   * the tuple of its count, then the whole trial's tuple.
   */
  function TotalColumn(circle: int, circleS: int, crescent: int, num: int): (r: Result<seq<Cell>>)
    ensures r.Ok? ==> |r.value| == 13 && r.value[0] == Label("合計")
    ensures r.Ok? ==> r.value[1] == Count(circle) && r.value[4] == Count(circleS) && r.value[7] == Count(crescent)
    ensures r.Ok? ==> r.value[10] == Count(num) && num > 0
  {
    var a :- CountProbTuple(circle, num);
    var b :- CountProbTuple(circleS, num);
    var c :- CountProbTuple(crescent, num);
    var d := CountProbTuple(num, num).value;
    Ok(Stack(Label("合計"), a, b, c, d))
  }

  /** The 13 × 4 cross-tab of room shape against number of mitites sets, with its colours. */
  function RoomCrossTab(result: Entries, num: int): (r: Result<Sheet>)
    ensures r.Ok? ==> |r.value.cells| == 13 && Rectangular(r.value.cells) && Width(r.value.cells) == 4
    ensures r.Ok? ==> SameShape(r.value.cells, r.value.colors)
    ensures r.Ok? ==> num > 0
    ensures r.Ok? ==> CrossTabCounts(result, num, r.value.cells)
    ensures r.Ok? ==> Margins(r.value.cells, num)
  {
    var one := RoomColumn(result, num, 1);
    if one.Err? then Err(one.error)
    else
      var two := RoomColumn(result, num, 2);
      if two.Err? then Err(two.error)
      else
        var total := RoomTotalColumn(result, num);
        if total.Err? then Err(total.error)
        else
          var sheet := CrossSheet(one.value, two.value, total.value);
          CrossTabMargins(result, num, sheet.cells);
          Ok(sheet)
  }

  /** Rows 1, 4, 7 and 10 of column `j` hold the counts `a`, `b`, `c` and `t`. */
  predicate ColumnCounts(g: Grid, j: nat, a: int, b: int, c: int, t: int)
    requires |g| == 13 && Rectangular(g) && j < Width(g)
  {
    g[1][j] == Count(a) && g[4][j] == Count(b) && g[7][j] == Count(c) && g[10][j] == Count(t)
  }

  /**
   * The count cells of the cross-tab: the room labels down column 0, the numbers of
   * sets across row 0, each room's count per number of sets with the three rooms'
   * sum below, and a total column of per-room sums over both numbers with the trial
   * size at its foot.
   */
  predicate CrossTabCounts(result: Entries, num: int, g: Grid)
    requires |g| == 13 && Rectangular(g) && Width(g) == 4
  {
    && (forall i :: 0 <= i < 13 ==> g[i][0] == RoomLabels[i])
    && g[0][1] == Count(1) && g[0][2] == Count(2) && g[0][3] == Label("合計")
    && ColumnCounts(g, 1, RoomCount(result, "circle", 1), RoomCount(result, "circle_s", 1),
      RoomCount(result, "crescent", 1), RoomsTotal(result, 1))
    && ColumnCounts(g, 2, RoomCount(result, "circle", 2), RoomCount(result, "circle_s", 2),
      RoomCount(result, "crescent", 2), RoomsTotal(result, 2))
    && ColumnCounts(g, 3, RoomCount(result, "circle", 1) + RoomCount(result, "circle", 2),
      RoomCount(result, "circle_s", 1) + RoomCount(result, "circle_s", 2),
      RoomCount(result, "crescent", 1) + RoomCount(result, "crescent", 2), num)
  }

  /** The total column: per room its counts for one and for two sets, re-read and added. */
  function RoomTotalColumn(result: Entries, num: int): (r: Result<seq<Cell>>) {
    TotalColumn(RoomCount(result, "circle", 1) + RoomCount(result, "circle", 2),
      RoomCount(result, "circle_s", 1) + RoomCount(result, "circle_s", 2),
      RoomCount(result, "crescent", 1) + RoomCount(result, "crescent", 2), num)
  }

  /** The cross-tab's sheet from its three data columns, under the room labels. */
  function CrossSheet(one: seq<Cell>, two: seq<Cell>, total: seq<Cell>): (sheet: Sheet)
    requires |one| == 13 && |two| == 13 && |total| == 13
    ensures |sheet.cells| == 13 && Rectangular(sheet.cells) && Width(sheet.cells) == 4
    ensures SameShape(sheet.cells, sheet.colors)
    ensures forall i :: 0 <= i < 13 ==> sheet.cells[i][0] == RoomLabels[i]
    ensures forall i :: 0 <= i < 13 ==> sheet.cells[i][1] == one[i] && sheet.cells[i][2] == two[i] && sheet.cells[i][3] == total[i]
  {
    Sheet(FromColumns([RoomLabels, one, two, total], 13), BandColors(13, 4, r => r % 3 == 1, false))
  }

  /**
   * The cross-tab's margins: the total column holds each room's count over both
   * numbers of sets, the total row each number's count over the three rooms, and the
   * corner the trial size.
   */
  predicate Margins(g: Grid, num: int)
    requires |g| == 13 && Rectangular(g) && Width(g) == 4
  {
    && g[1][1].Count? && g[4][1].Count? && g[7][1].Count?
    && g[1][2].Count? && g[4][2].Count? && g[7][2].Count?
    && g[1][3] == Count(g[1][1].count + g[1][2].count)
    && g[4][3] == Count(g[4][1].count + g[4][2].count)
    && g[7][3] == Count(g[7][1].count + g[7][2].count)
    && g[10][1] == Count(g[1][1].count + g[4][1].count + g[7][1].count)
    && g[10][2] == Count(g[1][2].count + g[4][2].count + g[7][2].count)
    && g[10][3] == Count(num)
  }

  /** The count cells fix the margins. */
  lemma CrossTabMargins(result: Entries, num: int, g: Grid)
    requires |g| == 13 && Rectangular(g) && Width(g) == 4 && CrossTabCounts(result, num, g)
    ensures Margins(g, num)
  {
  }

  /** The cross-tab's merges: each room label spans its three rows, as does the total label. */
  lemma RoomCrossTabSpans(result: Entries, num: int)
    requires RoomCrossTab(result, num).Ok?
    ensures var g := RoomCrossTab(result, num).value.cells;
      && Weight(g, 1, 0) == 3 && Weight(g, 4, 0) == 3 && Weight(g, 7, 0) == 3 && Weight(g, 10, 0) == 3
      && forall i :: 0 <= i < 13 && i % 3 != 1 && i != 0 ==> Weight(g, i, 0) == 0
  {
    var g := RoomCrossTab(result, num).value.cells;
    RoomLabelSpans(g);
  }

  /** The spans of the label column of any grid whose first column is the room labels. */
  lemma RoomLabelSpans(g: Grid)
    requires |g| == 13 && Rectangular(g) && Width(g) >= 1
    requires forall i :: 0 <= i < 13 ==> g[i][0] == RoomLabels[i]
    ensures Weight(g, 1, 0) == 3 && Weight(g, 4, 0) == 3 && Weight(g, 7, 0) == 3 && Weight(g, 10, 0) == 3
    ensures forall i :: 0 <= i < 13 && i % 3 != 1 && i != 0 ==> Weight(g, i, 0) == 0
  {
    assert Lead(g, 13, 0) == 0;
    assert Lead(g, 11, 0) == 2;
    assert Lead(g, 10, 0) == 0;
    assert Lead(g, 8, 0) == 2;
    assert Lead(g, 7, 0) == 0;
    assert Lead(g, 5, 0) == 2;
    assert Lead(g, 4, 0) == 0;
    assert Lead(g, 2, 0) == 2;
  }

  /**
   * The mitites sets over both sublevels: the first sublevel's two eggs each hide a set
   * with chance 1/20, the second's chances are the cross-tab's totals per number of
   * sets; the distribution of the sum is their convolution.
   */
  function BothSublevels(one: int, two: int, num: int): (probs: seq<real>)
    requires num != 0
    ensures |probs| == 5
  {
    var first := [MititesProb(2, 0), MititesProb(2, 1), MititesProb(2, 2)];
    var second := [0.0, one as real / num as real, two as real / num as real];
    Convolution(first, second)
  }

  /** The mitites table over both sublevels. */
  function BothSublevelsTable(one: int, two: int, num: int): Result<Sheet>
    requires num != 0
  {
    MititesTable(None, Some(BothSublevels(one, two, num)))
  }

  /**
   * The CH2-2 report: the room cross-tab, a spacer, then the table of mitites sets over
   * both sublevels.
   */
  function CrossTabParts(result: Entries, num: int): Result<seq<Part>> {
    Followed(Titled("地形とタマゴムシ", RoomCrossTab(result, num)), "タマゴムシの確率 (B1とB2の合計)",
      if num == 0 then Err(ZeroDivisionError)
      else BothSublevelsTable(RoomsTotal(result, 1), RoomsTotal(result, 2), num))
  }

  // ---------------------------------------------------------------- count stages

  /** `yaml.safe_load(keyText)[field]`, used as a number. */
  function FieldOf(load: Loader, keyText: string, field: string): Result<int> {
    match load(keyText)
    case None => Err(YamlError)
    case Some(key) =>
      match Lookup(key, field)
      case None => Err(KeyError(field))
      case Some(v) => AsInt(v)
  }

  /** Reading back the field of a one-field key written by the survey counter gives its number. */
  lemma NumberKeyField(load: Loader, field: string, n: int)
    requires ReadsKeys(load) && PlainText(field)
    ensures FieldOf(load, NumberKey(field, n), field) == Ok(n)
  {
    var key := [Field(field, Number(n))];
    OneFieldSpellings(field, true, n);
    assert WellFormedField(key[0]);
    assert load(KeyText(key)) == Some(key);
  }

  /**
   * `max(yaml.safe_load(k)[field] for k in result)`: the greatest field value, the first
   * unreadable key's error, or a ValueError for an empty result.
   */
  function MaxField(load: Loader, result: Entries, field: string): (r: Result<int>)
    ensures result == [] ==> r == Err(ValueError)
    ensures r.Ok? <==> result != [] && Readable(load, result, field)
    ensures r.Ok? ==> forall i :: 0 <= i < |result| ==> FieldOf(load, result[i].0, field).value <= r.value
    ensures r.Ok? ==> exists i :: 0 <= i < |result| && FieldOf(load, result[i].0, field) == Ok(r.value)
  {
    if result == [] then Err(ValueError)
    else
      var head := FieldOf(load, result[0].0, field);
      var tail := result[1..];
      assert forall i :: 1 <= i < |result| ==> result[i] == tail[i - 1];
      if head.Err? then Err(head.error)
      else if tail == [] then Ok(head.value)
      else
        var rest := MaxField(load, tail, field);
        if rest.Err? then Err(rest.error)
        else Ok(if head.value >= rest.value then head.value else rest.value)
  }

  /** Every key of `result` reads back with a numeric `field`. */
  predicate Readable(load: Loader, result: Entries, field: string) {
    forall i :: 0 <= i < |result| ==> FieldOf(load, result[i].0, field).Ok?
  }

  /** `[result.get('{field: n}', 0) for n in range(top + 1)]`. */
  function CountsUpTo(result: Entries, field: string, top: int): (counts: seq<int>)
    ensures |counts| == if top < 0 then 0 else top + 1
  {
    if top < 0 then [] else seq(top + 1, n => ReadOr(result, NumberKey(field, n)))
  }

  /**
   * Nothing the survey counted is lost: when every key is a counter key `{field: n}`
   * with n >= 0, the maximum reads back, and every entry's count sits at its own n in
   * the list the count table is built from.
   */
  lemma CountsUpToComplete(load: Loader, result: Entries, field: string, ns: seq<nat>)
    requires ReadsKeys(load) && PlainText(field) && DistinctKeys(result) && result != []
    requires |ns| == |result| && forall i :: 0 <= i < |result| ==> result[i].0 == NumberKey(field, ns[i])
    ensures MaxField(load, result, field).Ok?
    ensures forall i :: 0 <= i < |result| ==> ns[i] <= MaxField(load, result, field).value
    ensures forall i :: 0 <= i < |result| ==> CountsUpTo(result, field, MaxField(load, result, field).value)[ns[i]] == result[i].1
  {
    forall i | 0 <= i < |result| ensures FieldOf(load, result[i].0, field) == Ok(ns[i] as int) {
      NumberKeyField(load, field, ns[i]);
    }
    var top := MaxField(load, result, field).value;
    forall i | 0 <= i < |result| ensures CountsUpTo(result, field, top)[ns[i]] == result[i].1 {
      FindEntry(result, i);
    }
  }

  /** A stage with one count per value of `field`: the count table of those counts. */
  function FieldCountParts(load: Loader, title: string, field: string, result: Entries): Result<seq<Part>> {
    var top := MaxField(load, result, field);
    Titled(title, if top.Err? then Err(top.error) else CountTable(CountsUpTo(result, field, top.value), None))
  }

  /** The chance of each egg count: its count over the trial size. */
  function EggShares(counts: seq<int>, num: int): (probs: seq<real>)
    requires num != 0
    ensures |probs| == |counts|
    ensures forall e :: 0 <= e < |counts| ==> probs[e] * num as real == counts[e] as real
  {
    seq(|counts|, e requires 0 <= e < |counts| => Share(counts[e], num))
  }

  /** The CH29 report: the count table of eggs, a spacer, then the mitites table mixed over it. */
  function EggCountParts(load: Loader, result: Entries, num: int): Result<seq<Part>> {
    var top := MaxField(load, result, "eggs");
    Followed(FieldCountParts(load, "タマゴ出現数", "eggs", result), "タマゴムシの確率",
      if top.Err? then Err(top.error)
      else if num == 0 then Err(ZeroDivisionError)
      else MititesTable(Some(EggShares(CountsUpTo(result, "eggs", top.value), num)), None))
  }

  // ---------------------------------------------------------------- the egg and spider stage

  /** `yaml.safe_load(keyText)['elec']`, read for its truth. */
  function ElecOf(load: Loader, keyText: string): Result<bool> {
    match load(keyText)
    case None => Err(YamlError)
    case Some(key) =>
      match Lookup(key, "elec")
      case None => Err(KeyError("elec"))
      case Some(v) => Ok(Truthy(v))
  }

  /** Reading back `elec` from a key the survey counter wrote gives the flag it wrote. */
  lemma EggKeyElec(load: Loader, eggs: int, elec: bool)
    requires ReadsKeys(load)
    ensures ElecOf(load, EggKey(eggs, elec)) == Ok(elec)
  {
    var key := [Field("eggs", Number(eggs)), Field("elec", Flag(elec))];
    EggKeySpelling(eggs, elec);
    EggKeyWellFormed(eggs, elec);
    assert load(EggKey(eggs, elec)) == Some(key);
    assert Lookup(key, "elec") == Some(Flag(elec));
  }

  lemma EggKeyWellFormed(eggs: int, elec: bool)
    ensures WellFormed([Field("eggs", Number(eggs)), Field("elec", Flag(elec))])
  {
    assert PlainText("eggs") && PlainText("elec");
  }

  /** `sum(v for k, v in result.items() if yaml.safe_load(k)['elec'] == want)`. */
  function ElecSum(load: Loader, result: Entries, want: bool): (r: Result<int>)
    ensures r.Ok? <==> forall i :: 0 <= i < |result| ==> ElecOf(load, result[i].0).Ok?
    ensures r.Err? ==> exists i :: 0 <= i < |result| && ElecOf(load, result[i].0) == Err(r.error)
  {
    if result == [] then Ok(0)
    else
      var e := ElecOf(load, result[0].0);
      var tail := result[1..];
      assert forall i :: 1 <= i < |result| ==> result[i] == tail[i - 1];
      if e.Err? then Err(e.error)
      else
        var rest := ElecSum(load, tail, want);
        if rest.Err? then Err(rest.error)
        else Ok((if e.value == want then result[0].1 else 0) + rest.value)
  }

  /** Every readable key falls on exactly one side: the two sums add up to all counts. */
  lemma {:induction false} ElecSplit(load: Loader, result: Entries)
    requires ElecSum(load, result, true).Ok?
    ensures ElecSum(load, result, false).Ok?
    ensures ElecSum(load, result, true).value + ElecSum(load, result, false).value == Values(result)
    decreases |result|
  {
    if result != [] {
      assert forall i :: 1 <= i < |result| ==> result[i] == result[1..][i - 1];
      ElecSplit(load, result[1..]);
    }
  }

  /** `range(6)`: the egg counts the grid has a column for. */
  const EggRange: seq<int> := [0, 1, 2, 3, 4, 5]

  const EggLabels: seq<Cell> := [Label("タマゴ"),
    Label("エレキショイグモあり"), Down, Down, Label("エレキショイグモなし"), Down, Down]

  /** Column `1 + eggs`: the number of eggs, then the tuples with and without the spider. */
  function EggColumn(result: Entries, num: int, eggs: int): (r: Result<seq<Cell>>)
    ensures r.Ok? ==> |r.value| == 7 && r.value[0] == Count(eggs)
    ensures r.Ok? ==> r.value[1] == Count(ReadOr(result, EggKey(eggs, true)))
    ensures r.Ok? ==> r.value[4] == Count(ReadOr(result, EggKey(eggs, false)))
  {
    var a := CountProbTuple(ReadOr(result, EggKey(eggs, true)), num);
    if a.Err? then Err(a.error)
    else
      var b := CountProbTuple(ReadOr(result, EggKey(eggs, false)), num);
      if b.Err? then Err(b.error)
      else Ok([Count(eggs)] + a.value + b.value)
  }

  /**
   * The 7 × 8 grid of eggs (0 to 5) against the spider's presence, with the totals per
   * presence in the last column.
   */
  function ElecGrid(load: Loader, result: Entries, num: int): (r: Result<Sheet>)
    ensures r.Ok? ==> num != 0 && ElecSum(load, result, true).Ok? && ElecSum(load, result, false).Ok?
    ensures r.Ok? ==> |r.value.cells| == 7 && Rectangular(r.value.cells) && Width(r.value.cells) == 8
    ensures r.Ok? ==> SameShape(r.value.cells, r.value.colors)
    ensures r.Ok? ==> EggCounts(result, r.value.cells)
    ensures r.Ok? ==> r.value.cells[1][7] == Count(ElecSum(load, result, true).value)
    ensures r.Ok? ==> r.value.cells[4][7] == Count(ElecSum(load, result, false).value)
  {
    var cols := MapResult(EggRange, (e: int) => EggColumn(result, num, e));
    if cols.Err? then Err(cols.error)
    else
      var yes := ElecSum(load, result, true);
      if yes.Err? then Err(yes.error)
      else
        ElecSplit(load, result);
        var no := ElecSum(load, result, false).value;
        var total := ElecTotalColumn(yes.value, no, num);
        if total.Err? then Err(total.error)
        else
          var sheet := ElecSheet(cols.value, total.value);
          ElecSheetCounts(result, num, cols.value, total.value);
          Ok(sheet)
  }

  /** The total column: the tuples of all sublevels with and without the spider. */
  function ElecTotalColumn(yes: int, no: int, num: int): (r: Result<seq<Cell>>)
    ensures r.Ok? ==> |r.value| == 7 && r.value[0] == Label("合計")
    ensures r.Ok? ==> r.value[1] == Count(yes) && r.value[4] == Count(no) && num != 0
  {
    var a := CountProbTuple(yes, num);
    if a.Err? then Err(a.error)
    else
      var b := CountProbTuple(no, num);
      if b.Err? then Err(b.error)
      else Ok([Label("合計")] + a.value + b.value)
  }

  /** The egg grid from its six egg columns and its total column, under the spider labels. */
  function ElecSheet(cols: seq<seq<Cell>>, total: seq<Cell>): (sheet: Sheet)
    requires |cols| == 6 && |total| == 7 && forall e :: 0 <= e < 6 ==> |cols[e]| == 7
    ensures |sheet.cells| == 7 && Rectangular(sheet.cells) && Width(sheet.cells) == 8
    ensures SameShape(sheet.cells, sheet.colors)
    ensures forall i :: 0 <= i < 7 ==> sheet.cells[i][0] == EggLabels[i] && sheet.cells[i][7] == total[i]
    ensures forall i, e :: 0 <= i < 7 && 0 <= e < 6 ==> sheet.cells[i][1 + e] == cols[e][i]
  {
    var all := [EggLabels] + cols + [total];
    assert forall e :: 0 <= e < 6 ==> all[1 + e] == cols[e];
    Sheet(FromColumns(all, 7), BandColors(7, 8, r => r == 1 || r == 4, false))
  }

  /** Columns 1 to 6 of the egg grid hold, per number of eggs, the counts with and without the spider. */
  predicate EggCounts(result: Entries, g: Grid)
    requires |g| == 7 && Rectangular(g) && Width(g) == 8
  {
    forall e :: 0 <= e < 6 ==>
      && g[1][1 + e] == Count(ReadOr(result, EggKey(e, true)))
      && g[4][1 + e] == Count(ReadOr(result, EggKey(e, false)))
  }

  lemma ElecSheetCounts(result: Entries, num: int, cols: seq<seq<Cell>>, total: seq<Cell>)
    requires MapResult(EggRange, (e: int) => EggColumn(result, num, e)) == Ok(cols)
    requires |total| == 7
    ensures |cols| == 6 && forall e :: 0 <= e < 6 ==> |cols[e]| == 7
    ensures EggCounts(result, ElecSheet(cols, total).cells)
  {
    forall e | 0 <= e < 6 ensures |cols[e]| == 7 {
      EggColumnAt(result, num, cols, e);
    }
    var g := ElecSheet(cols, total).cells;
    forall e | 0 <= e < 6 ensures
      && g[1][1 + e] == Count(ReadOr(result, EggKey(e, true)))
      && g[4][1 + e] == Count(ReadOr(result, EggKey(e, false)))
    {
      EggColumnAt(result, num, cols, e);
      assert g[1][1 + e] == cols[e][1] && g[4][1 + e] == cols[e][4];
    }
  }

  lemma EggColumnAt(result: Entries, num: int, cols: seq<seq<Cell>>, e: int)
    requires MapResult(EggRange, (e: int) => EggColumn(result, num, e)) == Ok(cols)
    requires 0 <= e < 6
    ensures |cols| == 6 && |cols[e]| == 7
    ensures cols[e][1] == Count(ReadOr(result, EggKey(e, true))) && cols[e][4] == Count(ReadOr(result, EggKey(e, false)))
  {
    MapResultAt(EggRange, (e: int) => EggColumn(result, num, e), cols, e);
    assert EggRange[e] == e;
  }

  /** The totals column of the egg grid accounts for every counted sublevel. */
  lemma ElecGridTotal(load: Loader, result: Entries, num: int)
    requires ElecGrid(load, result, num).Ok?
    ensures var g := ElecGrid(load, result, num).value.cells;
      g[1][7].count + g[4][7].count == Values(result)
  {
    ElecSplit(load, result);
  }

  /** The CH28 report: the egg grid, a spacer, then the mitites table over the eggs with the spider. */
  function ElecParts(load: Loader, result: Entries, num: int): Result<seq<Part>> {
    Followed(Titled("タマゴ出現数", ElecGrid(load, result, num)), "タマゴムシの確率（キショイグモあり）",
      if num == 0 then Err(ZeroDivisionError)
      else MititesTable(Some(seq(6, e => ReadOr(result, EggKey(e, true)) as real / num as real)), None))
  }

  // ---------------------------------------------------------------- dispatch

  /** The stages the report knows how to lay out. */
  predicate Supported(name: string) {
    name in ["FC-7", "SC-4", "GK-5", "SR-6", "CH2-2", "CH8", "CH28", "CH29"]
  }

  /** The parts of a stage's section, chosen by its code name. */
  function StageParts(load: Loader, stage: Stage): (r: Result<seq<Part>>)
    ensures !Supported(stage.name) ==> r == Err(NotImplementedError)
    ensures stage.name in ["FC-7", "SC-4"] ==> r == YesNoParts("オオガネモチ出現率", "oogane", stage.result)
    ensures stage.name == "GK-5" ==> r == YesNoParts("ムラサキポンガシ出現率", "murasakipom", stage.result)
    ensures stage.name == "SR-6" ==> r == YesNoParts("オナラシ出現率", "onarashi", stage.result)
    ensures stage.name == "CH2-2" ==> r == CrossTabParts(stage.result, stage.num)
    ensures stage.name == "CH8" ==> r == FieldCountParts(load, "コチャ出現数", "kocha", stage.result)
    ensures stage.name == "CH28" ==> r == ElecParts(load, stage.result, stage.num)
    ensures stage.name == "CH29" ==> r == EggCountParts(load, stage.result, stage.num)
  {
    var name := stage.name;
    if name == "FC-7" || name == "SC-4" then YesNoParts("オオガネモチ出現率", "oogane", stage.result)
    else if name == "GK-5" then YesNoParts("ムラサキポンガシ出現率", "murasakipom", stage.result)
    else if name == "SR-6" then YesNoParts("オナラシ出現率", "onarashi", stage.result)
    else if name == "CH2-2" then CrossTabParts(stage.result, stage.num)
    else if name == "CH8" then FieldCountParts(load, "コチャ出現数", "kocha", stage.result)
    else if name == "CH28" then ElecParts(load, stage.result, stage.num)
    else if name == "CH29" then EggCountParts(load, stage.result, stage.num)
    else Err(NotImplementedError)
  }

  /** A contents entry: the link to the stage's section and its display name. */
  function ContentsEntry(stage: Stage): Result<(string, string)> {
    var text :- DisplayName(stage.name, stage.jpName);
    Ok(("#tables-" + stage.name, text))
  }

  function StageSection(load: Loader, stage: Stage): Result<Section> {
    var caption :- Caption(stage);
    var parts :- StageParts(load, stage);
    Ok(Section("tables-" + stage.name, caption, parts))
  }

  /**
   * The report: the contents first (so a bad code name fails before any table), then
   * every stage's section in order.
   */
  function ParseData(load: Loader, stages: seq<Stage>): (r: Result<Report>)
    ensures r.Ok? <==> forall i :: 0 <= i < |stages| ==>
      DisplayName(stages[i].name, stages[i].jpName).Ok? && StageParts(load, stages[i]).Ok?
    ensures r.Ok? ==> |r.value.contents| == |stages| && |r.value.sections| == |stages|
    ensures r.Ok? ==> forall i :: 0 <= i < |stages| ==>
      r.value.contents[i] == ("#tables-" + stages[i].name, DisplayName(stages[i].name, stages[i].jpName).value)
    ensures r.Ok? ==> forall i :: 0 <= i < |stages| ==>
      && r.value.sections[i].anchor == "tables-" + stages[i].name
      && r.value.sections[i].parts == StageParts(load, stages[i]).value
  {
    var contents :- MapResult(stages, ContentsEntry);
    var sections :- MapResult(stages, (stage: Stage) => StageSection(load, stage));
    Ok(Report(contents, sections))
  }

  /**
   * An unknown stage ends the report with NotImplementedError once the contents are
   * built and every stage before it has its section.
   */
  lemma UnknownStage(load: Loader, stages: seq<Stage>, i: nat)
    requires i < |stages| && !Supported(stages[i].name)
    requires forall j :: 0 <= j < |stages| ==> DisplayName(stages[j].name, stages[j].jpName).Ok?
    requires forall j :: 0 <= j < i ==> StageParts(load, stages[j]).Ok?
    ensures ParseData(load, stages) == Err(NotImplementedError)
  {
    assert MapResult(stages, ContentsEntry).Ok?;
    forall j | 0 <= j < i ensures StageSection(load, stages[j]).Ok? {
      SectionOk(load, stages[j]);
    }
    UnknownSection(load, stages[i]);
    MapResultFirstError(stages, (stage: Stage) => StageSection(load, stage), i);
  }

  lemma SectionOk(load: Loader, stage: Stage)
    requires DisplayName(stage.name, stage.jpName).Ok? && StageParts(load, stage).Ok?
    ensures StageSection(load, stage).Ok?
  {
  }

  lemma UnknownSection(load: Loader, stage: Stage)
    requires DisplayName(stage.name, stage.jpName).Ok? && !Supported(stage.name)
    ensures StageSection(load, stage) == Err(NotImplementedError)
  {
  }
}
