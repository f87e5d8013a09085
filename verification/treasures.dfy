/**
 * The treasure table of `scripts/pikmin2_treasures.py`: a list of treasure records
 * becomes a header row of fifteen column titles and one body row per treasure, the
 * first cell a picture and the others the record's values, `---` where a key is missing.
 * Markup is kept as rows of cells; the URL of the static file server is a parameter.
 */
module Treasures {
  import opened Results
  import opened Text

  /** A record value as the YAML data holds it: an integer or a string. */
  datatype Datum = Int(i: int) | Str(s: string)

  /** One treasure: its keys and values. */
  type Treasure = map<string, Datum>

  /** `KEY_TO_COLUMNS`, in declaration order: each record key with its column title. */
  const KeyToColumns: seq<(string, string)> := [
    ("imagePath", "画像"),
    ("jpId", "No. (日本版)"),
    ("usId", "No. (米国版)"),
    ("euId", "No. (欧州版)"),
    ("jpName", "名前(日本語)"),
    ("enName", "名前(英語)"),
    ("weight", "重さ"),
    ("maxCarriers", "最大運搬数"),
    ("value", "価値"),
    ("location", "場所"),
    ("sublevel", "階層"),
    ("jpSeries", "シリーズ(日本語)"),
    ("enSeries", "シリーズ(英語)"),
    ("jpRealLifeItem", "見た目(日本語)"),
    ("enRealLifeItem", "見た目(英語)")]

  const ColumnCount: nat := 15

  /** `KEY_TO_COLUMNS.keys()`. */
  function Keys(): (keys: seq<string>)
    ensures |keys| == ColumnCount
    ensures forall k :: 0 <= k < ColumnCount ==> keys[k] == KeyToColumns[k].0
  {
    seq(|KeyToColumns|, k requires 0 <= k < |KeyToColumns| => KeyToColumns[k].0)
  }

  /** A dictionary has each key once. */
  lemma KeysDistinct()
    ensures forall i, j :: 0 <= i < j < ColumnCount ==> Keys()[i] != Keys()[j]
  {
    var keys := Keys();
    forall i, j | 0 <= i < j < ColumnCount
      ensures keys[i] != keys[j]
    {
      assert keys[i][..2] != keys[j][..2] || keys[i] != keys[j];
    }
  }

  /** The header row: `KEY_TO_COLUMNS.values()`, in declaration order. */
  function Header(): (titles: seq<string>)
    ensures |titles| == ColumnCount
    ensures forall k :: 0 <= k < ColumnCount ==> titles[k] == KeyToColumns[k].1
  {
    seq(|KeyToColumns|, k requires 0 <= k < |KeyToColumns| => KeyToColumns[k].1)
  }

  /** Python `str(value)`. */
  function DatumText(d: Datum): string {
    match d
    case Int(i) => IntText(i)
    case Str(s) => s
  }

  /** A body cell: the treasure's picture, or text. */
  datatype Cell = Picture(src: string, alt: string, title: string) | Plain(text: string)

  /** The picture cell: the image under `images/treasures/`, described by its own path. */
  function PictureOf(path: Datum, staticUrl: string -> string): Cell {
    var p := DatumText(path);
    Picture(".." + staticUrl("images/treasures/" + p), p, p)
  }

  /** The text cell of a non-image key: the value's text, or `---` when the record lacks the key. */
  function TextCell(t: Treasure, key: string): (c: Cell)
    ensures key in t ==> c == Plain(DatumText(t[key]))
    ensures key !in t ==> c == Plain("---")
  {
    Plain(if key in t then DatumText(t[key]) else "---")
  }

  /**
   * One body row: the columns in key order.  The image path is read without a default,
   * so a record lacking it raises KeyError.
   */
  function Row(t: Treasure, staticUrl: string -> string): (r: Result<seq<Cell>>)
    ensures r.Err? <==> "imagePath" !in t
    ensures r.Err? ==> r.error == KeyError("imagePath")
    ensures r.Ok? ==>
      && |r.value| == ColumnCount
      && r.value[0] == PictureOf(t["imagePath"], staticUrl)
      && forall k :: 1 <= k < ColumnCount ==> r.value[k] == TextCell(t, Keys()[k])
  {
    if "imagePath" !in t then Err(KeyError("imagePath"))
    else Ok([PictureOf(t["imagePath"], staticUrl)] + seq(ColumnCount - 1, k requires 0 <= k < ColumnCount - 1 => TextCell(t, Keys()[k + 1])))
  }

  datatype Table = Table(header: seq<string>, body: seq<seq<Cell>>)

  /** `generate`: the header, then the body rows in input order; the first record without an image path stops it. */
  function Generate(data: seq<Treasure>, staticUrl: string -> string): (r: Result<Table>)
    ensures r.Ok? <==> forall i :: 0 <= i < |data| ==> "imagePath" in data[i]
    ensures r.Ok? ==>
      && r.value.header == Header()
      && |r.value.body| == |data|
      && forall i :: 0 <= i < |data| ==> Row(data[i], staticUrl) == Ok(r.value.body[i])
    ensures r.Err? ==> r.error == KeyError("imagePath")
  {
    match MapResult(data, t => Row(t, staticUrl))
    case Err(e) => Err(e)
    case Ok(rows) => Ok(Table(Header(), rows))
  }

  /**
   * Every body cell of a generated table, read back: a text column shows the value's
   * text when the record has the key and `---` when it does not.
   */
  lemma BodyCell(data: seq<Treasure>, staticUrl: string -> string, i: nat, k: nat)
    requires Generate(data, staticUrl).Ok?
    requires i < |data| && 1 <= k < ColumnCount
    ensures var cell := Generate(data, staticUrl).value.body[i][k];
      && (Keys()[k] in data[i] ==> cell == Plain(DatumText(data[i][Keys()[k]])))
      && (Keys()[k] !in data[i] ==> cell == Plain("---"))
  {
    assert Row(data[i], staticUrl).Ok?;
  }

  /** Generating a table for more records extends the body of the table for fewer. */
  lemma {:induction false} GenerateAppend(a: seq<Treasure>, b: seq<Treasure>, staticUrl: string -> string)
    requires Generate(a + b, staticUrl).Ok?
    ensures Generate(a, staticUrl).Ok?
    ensures Generate(a + b, staticUrl).value.body[..|a|] == Generate(a, staticUrl).value.body
  {
    var whole := a + b;
    assert forall i :: 0 <= i < |a| ==> whole[i] == a[i];
    var full := Generate(whole, staticUrl).value.body;
    var part := Generate(a, staticUrl).value.body;
    forall i | 0 <= i < |a|
      ensures full[i] == part[i]
    {
      assert Row(a[i], staticUrl) == Ok(full[i]);
    }
  }
}
