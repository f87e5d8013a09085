/**
 * The survey keys: small flow mappings such as `{eggs: 3, elec: true}` that the survey
 * counter writes as result-map keys and the report rebuilds (to look a count up) or
 * re-reads with a YAML reader (to recover a field).  One canonical text is defined here
 * and used by both sides, together with a reader for exactly that syntax.
 */
module SurveyKeys {
  import opened Results
  import opened Text

  /** A field value: a boolean, an integer, or a bare word such as `circle`. */
  datatype Value = Flag(flag: bool) | Number(number: int) | Word(word: string)

  datatype Field = Field(name: string, value: Value)

  /** The fields of a key, in the order they are written. */
  type Key = seq<Field>

  /** Java's `"" + b` / `"" + n` and Python's f-string rendering of a field value. */
  function ValueText(v: Value): string {
    match v
    case Flag(b) => if b then "true" else "false"
    case Number(n) => IntText(n)
    case Word(w) => w
  }

  function FieldText(f: Field): string {
    f.name + ": " + ValueText(f.value)
  }

  function FieldTexts(key: Key): (texts: seq<string>)
    ensures |texts| == |key|
    ensures forall i :: 0 <= i < |key| ==> texts[i] == FieldText(key[i])
  {
    seq(|key|, i requires 0 <= i < |key| => FieldText(key[i]))
  }

  /** `{name: value, name: value}`, the canonical text of a key. */
  function KeyText(key: Key): (text: string)
    ensures |text| >= 2 && text[0] == '{' && text[|text| - 1] == '}'
  {
    "{" + Join(FieldTexts(key), ", ") + "}"
  }

  // ---------------------------------------------------------------- reading keys back

  /** A YAML plain scalar as the reader types it: boolean, integer, or else a word. */
  function ParseValue(t: string): Value {
    if t == "true" then Flag(true)
    else if t == "false" then Flag(false)
    else match ParseInt(t)
      case Some(n) => Number(n)
      case None => Word(t)
  }

  /** `name: value`, possibly indented. */
  function ParseField(t: string): Option<Field> {
    var parts := Split(TrimStart(t), ':');
    if |parts| != 2 then None else Some(Field(parts[0], ParseValue(TrimStart(parts[1]))))
  }

  /** Reads a flow mapping `{...}` of `name: value` fields separated by commas. */
  function ParseKey(text: string): Option<Key> {
    if |text| < 2 || text[0] != '{' || text[|text| - 1] != '}' then None
    else
      var inner := text[1..|text| - 1];
      if inner == "" then Some([]) else MapOption(Split(inner, ','), ParseField)
  }

  /** Characters that would end a name or a word early in the flow syntax. */
  predicate PlainText(s: string) {
    |s| > 0 && forall i :: 0 <= i < |s| ==> s[i] !in " ,:{}"
  }

  /** A word the reader would not take for a boolean or an integer. */
  predicate PlainWord(w: string) {
    PlainText(w) && w != "true" && w != "false" && ParseInt(w).None?
  }

  predicate WellFormedField(f: Field) {
    PlainText(f.name) && (f.value.Word? ==> PlainWord(f.value.word))
  }

  predicate WellFormed(key: Key) {
    forall i :: 0 <= i < |key| ==> WellFormedField(key[i])
  }

  /** Reading the canonical text of a well-formed key gives the key back. */
  lemma KeyTextRoundTrip(key: Key)
    requires WellFormed(key)
    ensures ParseKey(KeyText(key)) == Some(key)
  {
    var text := KeyText(key);
    var inner := Join(FieldTexts(key), ", ");
    assert text[1..|text| - 1] == inner;
    if |key| == 0 {
      assert inner == "";
    } else {
      var pieces := KeyPieces(key);
      forall i | 0 <= i < |pieces| ensures ParseField(pieces[i]) == Some(key[i]) {
        FieldTextShape(key[i]);
        FieldRoundTrip(key[i]);
        if i > 0 {
          assert TrimStart(pieces[i]) == TrimStart(FieldText(key[i]));
        }
      }
      var fields := MapOption(pieces, ParseField);
      assert fields.Some? && fields.value == key;
    }
  }

  /** The comma-separated pieces of a key's inner text: each field's text, indented after the first. */
  lemma KeyPieces(key: Key) returns (pieces: seq<string>)
    requires WellFormed(key) && |key| > 0
    ensures pieces == Split(Join(FieldTexts(key), ", "), ',')
    ensures |pieces| == |key|
    ensures pieces[0] == FieldText(key[0])
    ensures forall i :: 1 <= i < |key| ==> pieces[i] == " " + FieldText(key[i])
  {
    var texts := FieldTexts(key);
    NoCommaInFields(key);
    assert ", " == [','] + " ";
    SplitJoin(texts, ',', " ");
    var tail := seq(|texts| - 1, i requires 0 <= i < |texts| - 1 => " " + texts[i + 1]);
    pieces := [texts[0]] + tail;
  }

  lemma NoCommaInFields(key: Key)
    requires WellFormed(key)
    ensures forall i :: 0 <= i < |key| ==> ',' !in FieldTexts(key)[i]
  {
    forall i | 0 <= i < |key| ensures ',' !in FieldTexts(key)[i] {
      FieldTextShape(key[i]);
    }
  }

  /** The text of a well-formed field holds no comma and starts with its name. */
  lemma FieldTextShape(f: Field)
    requires WellFormedField(f)
    ensures ',' !in FieldText(f)
    ensures TrimStart(FieldText(f)) == FieldText(f)
  {
    ValueTextShape(f.value);
    var t := FieldText(f);
    assert t[0] == f.name[0];
    forall i | 0 <= i < |t| ensures t[i] != ',' {
      if i >= |f.name| + 2 {
        assert t[i] == ValueText(f.value)[i - |f.name| - 2];
      }
    }
  }

  lemma ValueTextShape(v: Value)
    requires v.Word? ==> PlainWord(v.word)
    ensures |ValueText(v)| > 0 && ValueText(v)[0] != ' '
    ensures ',' !in ValueText(v) && ':' !in ValueText(v)
  {
    if v.Number? {
      var n := v.number;
      var d := Decimal(if n < 0 then -n else n);
      assert forall i :: 0 <= i < |d| ==> '0' <= d[i] <= '9';
      if n < 0 {
        assert ValueText(v) == "-" + d;
        assert forall i :: 1 <= i < |ValueText(v)| ==> ValueText(v)[i] == d[i - 1];
      }
    }
  }

  /** One field reads back from its own text. */
  lemma FieldRoundTrip(f: Field)
    requires WellFormedField(f)
    ensures ParseField(FieldText(f)) == Some(f)
  {
    FieldTextShape(f);
    ValueTextShape(f.value);
    var vt := ValueText(f.value);
    assert FieldText(f) == f.name + [':'] + (" " + vt);
    assert ':' !in f.name;
    assert ':' !in " " + vt;
    SplitFirst(f.name, ':', " " + vt);
    SplitNone(" " + vt, ':');
    assert TrimStart(" " + vt) == vt;
    ValueRoundTrip(f.value);
  }

  lemma ValueRoundTrip(v: Value)
    requires v.Word? ==> PlainWord(v.word)
    ensures ParseValue(ValueText(v)) == v
  {
    if v.Number? {
      IntTextRoundTrip(v.number);
      var t := ValueText(v);
      ValueTextShape(v);
      assert t[0] == '-' || '0' <= t[0] <= '9';
      assert t != "true" && t != "false";
    }
  }

  // ---------------------------------------------------------------- using a read key

  /** `key[name]` on the mapping the reader built; `None` is the KeyError. */
  function Lookup(key: Key, name: string): (r: Option<Value>)
    ensures r.Some? <==> exists i :: 0 <= i < |key| && key[i].name == name
    ensures r.Some? ==> exists i :: 0 <= i < |key| && key[i] == Field(name, r.value)
  {
    if key == [] then None
    else if key[0].name == name then Some(key[0].value)
    else
      var r := Lookup(key[1..], name);
      assert forall i :: 1 <= i < |key| ==> key[i] == key[1..][i - 1];
      r
  }

  /** Python's numeric view of a value: `True` is 1 and `False` is 0; a word is not a number. */
  function AsInt(v: Value): Result<int> {
    match v
    case Flag(b) => Ok(if b then 1 else 0)
    case Number(n) => Ok(n)
    case Word(_) => Err(TypeError)
  }

  /** Python truthiness of a value. */
  predicate Truthy(v: Value) {
    match v
    case Flag(b) => b
    case Number(n) => n != 0
    case Word(w) => w != ""
  }
}
