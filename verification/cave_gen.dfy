/**
 * The survey counter of `tools/CaveGenEdited.java`: for every generated sublevel it
 * classifies what was placed into one survey key (three sublevels give two keys),
 * counts how often each key text occurs, and prints the counts as one trial line.
 * The generator itself is a parameter: `generate(i)` is what step `i` placed.
 */
module CaveGen {
  import opened Results
  import opened Text
  import opened SurveyKeys
  import opened CountMaps
  import opened Trials

  /** A placed enemy: its internal name and the item it carries, `None` for Java's null. */
  datatype Teki = Teki(name: string, itemInside: Option<string>)

  /** What one generation step placed: its enemies, the names of its items, and whether a geyser was placed. */
  datatype Layout = Layout(tekis: seq<Teki>, items: seq<string>, geyser: bool)

  function TekiNames(tekis: seq<Teki>): (names: seq<string>)
    ensures |names| == |tekis|
    ensures forall i :: 0 <= i < |tekis| ==> names[i] == tekis[i].name
  {
    seq(|tekis|, i requires 0 <= i < |tekis| => tekis[i].name)
  }

  // ---------------------------------------------------------------- the scanning loops

  /** The loop that sets a flag once some name equals `target`. */
  function AnyNamed(names: seq<string>, target: string): (found: bool)
    ensures found <==> target in names
  {
    if names == [] then false
    else
      var init := names[..|names| - 1];
      assert names == init + [names[|names| - 1]];
      AnyNamed(init, target) || names[|names| - 1] == target
  }

  /** The loop that increments a counter for every name equal to `target`. */
  function Tallied(names: seq<string>, target: string): (n: nat)
    ensures n == multiset(names)[target]
  {
    if names == [] then 0
    else
      var init := names[..|names| - 1];
      assert names == init + [names[|names| - 1]];
      Tallied(init, target) + (if names[|names| - 1] == target then 1 else 0)
  }

  /** The CoS-4 loop: a Jigumo whose item is non-null and equal to "chocolate". */
  function AnyChocolate(tekis: seq<Teki>): (found: bool)
    ensures found <==> exists i :: 0 <= i < |tekis| && tekis[i].name == "Jigumo" && tekis[i].itemInside == Some("chocolate")
  {
    if tekis == [] then false
    else
      var init := tekis[..|tekis| - 1];
      var last := tekis[|tekis| - 1];
      assert forall i :: 0 <= i < |init| ==> init[i] == tekis[i];
      AnyChocolate(init) || (last.name == "Jigumo" && last.itemInside.Some? && last.itemInside.value == "chocolate")
  }

  function Has(layout: Layout, name: string): bool {
    AnyNamed(TekiNames(layout.tekis), name)
  }

  function Many(layout: Layout, name: string): nat {
    Tallied(TekiNames(layout.tekis), name)
  }

  // ---------------------------------------------------------------- the key of one step

  function OneFlag(name: string, b: bool): Key {
    [Field(name, Flag(b))]
  }

  function OneNumber(name: string, n: int): Key {
    [Field(name, Number(n))]
  }

  /**
   * The counter's branches, one per kind of key.  Several (cave, sublevel) pairs share
   * a branch when the source gives them the same key; the four one-number egg surveys
   * differ only in what they print to the console.
   */
  datatype Branch =
    | PurplePom        // `{murasakipom: B}`: a BlackPom was placed
    | Wealthy          // `{oogane: B}`
    | WhitePoms        // `{whitepom: N}`
    | FixedTamakokin   // `{fixedTamakokin: B}`: an FminiHoudai was placed
    | PurplePoms       // `{murasakipom: N}`
    | Popogashi        // `{popogashi: B}`: a RandPom was placed
    | Chocolate        // `{chocolate: B}`
    | YellowPomCastanets
    | Onarashi         // `{onarashi: B}`: a Fart was placed
    | Kemekuji         // `{kemekuji: B}`: an UmiMushi was placed
    | Mitites          // `{mitites: N}`: the TamagoMushi placed
    | Eggs             // `{eggs: N}`
    | Kochappies       // `{kocha: N}`
    | EggsYakicha
    | Maggots          // `{ujimesu: N, ujiosu: N, tobinko: N}`
    | EggsElecGeyser

  /** The branch the if-chain takes for a (cave, sublevel) pair; `None` is the final `else` that throws. */
  function BranchOf(cave: string, sublevel: int): Option<Branch> {
    if (cave == "FC" && sublevel == 4) || (cave == "BK" && sublevel == 6)
      || (cave == "GK" && sublevel == 5) || (cave == "SR" && sublevel == 5) then Some(PurplePom)
    else if (cave == "FC" && sublevel == 7) || (cave == "SC" && sublevel == 4) then Some(Wealthy)
    else if cave == "SCx" && sublevel == 4 then Some(WhitePoms)
    else if cave == "SCx" && sublevel == 7 then Some(FixedTamakokin)
    else if cave == "BK" && sublevel == 4 then Some(PurplePoms)
    else if cave == "CoS" && sublevel == 3 then Some(Popogashi)
    else if cave == "CoS" && sublevel == 4 then Some(Chocolate)
    else if cave == "GK" && sublevel == 3 then Some(YellowPomCastanets)
    else if cave == "SR" && sublevel == 6 then Some(Onarashi)
    else if cave == "SR" && sublevel == 7 then Some(Kemekuji)
    else if cave == "CH2" && sublevel == 2 then Some(Mitites)
    else if cave == "CH5" && sublevel == 2 then Some(Eggs)
    else if cave == "CH8" && sublevel == 1 then Some(Kochappies)
    else if cave == "CH18" && sublevel == 1 then Some(EggsYakicha)
    else if cave == "CH20" && sublevel == 1 then Some(Eggs)
    else if cave == "CH21" && sublevel == 1 then Some(Maggots)
    else if cave == "CH26" && sublevel == 3 then Some(Eggs)
    else if cave == "CH28" && sublevel == 1 then Some(EggsElecGeyser)
    else if cave == "CH29" && sublevel == 1 then Some(Eggs)
    else None
  }

  /** The (cave, sublevel) pairs the counter has a branch for. */
  predicate Supported(cave: string, sublevel: int) {
    BranchOf(cave, sublevel).Some?
  }

  /** The if-chain has a branch for exactly these pairs. */
  lemma SupportedPairs(cave: string, sublevel: int)
    ensures Supported(cave, sublevel) <==> (cave, sublevel) in {
      ("FC", 4), ("BK", 6), ("GK", 5), ("SR", 5), ("FC", 7), ("SC", 4), ("SCx", 4), ("SCx", 7),
      ("BK", 4), ("CoS", 3), ("CoS", 4), ("GK", 3), ("SR", 6), ("SR", 7), ("CH2", 2), ("CH5", 2),
      ("CH8", 1), ("CH18", 1), ("CH20", 1), ("CH21", 1), ("CH26", 3), ("CH28", 1), ("CH29", 1)}
  {
  }

  /** The branches that put a first key into the counter before reassigning `key`. */
  predicate TwoKeys(cave: string, sublevel: int) {
    BranchOf(cave, sublevel) in {Some(YellowPomCastanets), Some(EggsYakicha), Some(EggsElecGeyser)}
  }

  /** The two-key branches are GK-3, CH18-1 and CH28-1. */
  lemma TwoKeyPairs(cave: string, sublevel: int)
    ensures TwoKeys(cave, sublevel) <==> (cave, sublevel) in {("GK", 3), ("CH18", 1), ("CH28", 1)}
  {
  }

  /** The keys a branch adds for one layout, in the order it adds them. */
  function BranchKeys(b: Branch, layout: Layout): (keys: seq<Key>)
    ensures |keys| == if b in {YellowPomCastanets, EggsYakicha, EggsElecGeyser} then 2 else 1
  {
    match b
    case PurplePom => [OneFlag("murasakipom", Has(layout, "BlackPom"))]
    case Wealthy => [OneFlag("oogane", Has(layout, "Wealthy"))]
    case WhitePoms => [OneNumber("whitepom", Many(layout, "WhitePom"))]
    case FixedTamakokin => [OneFlag("fixedTamakokin", Has(layout, "FminiHoudai"))]
    case PurplePoms => [OneNumber("murasakipom", Many(layout, "BlackPom"))]
    case Popogashi => [OneFlag("popogashi", Has(layout, "RandPom"))]
    case Chocolate => [OneFlag("chocolate", AnyChocolate(layout.tekis))]
    case YellowPomCastanets =>
      [OneFlag("yellowpom", Has(layout, "YellowPom")), OneFlag("castanets", AnyNamed(layout.items, "castanets"))]
    case Onarashi => [OneFlag("onarashi", Has(layout, "Fart"))]
    case Kemekuji => [OneFlag("kemekuji", Has(layout, "UmiMushi"))]
    case Mitites => [OneNumber("mitites", Many(layout, "TamagoMushi"))]
    case Eggs => [OneNumber("eggs", Many(layout, "Egg"))]
    case Kochappies => [OneNumber("kocha", Many(layout, "Kochappy"))]
    case EggsYakicha => [OneNumber("eggs", Many(layout, "Egg")), OneFlag("yakicha", Has(layout, "FireChappy"))]
    case Maggots =>
      [[Field("ujimesu", Number(Many(layout, "UjiA"))), Field("ujiosu", Number(Many(layout, "UjiB"))),
        Field("tobinko", Number(Many(layout, "Tobi")))]]
    case EggsElecGeyser =>
      [[Field("eggs", Number(Many(layout, "Egg"))), Field("elec", Flag(Has(layout, "ElecOtakara")))],
       OneFlag("geyser", layout.geyser)]
  }

  /**
   * The keys one generated sublevel adds to the counter, in the order they are added.
   * A pair without a branch throws, with the message `cave-sublevel`.
   */
  function StepKeys(cave: string, sublevel: int, layout: Layout): (r: Result<seq<Key>>)
    ensures r.Ok? <==> Supported(cave, sublevel)
    ensures r.Err? ==> r.error == UnsupportedOperation(cave + "-" + IntText(sublevel))
    ensures r.Ok? ==> |r.value| == if TwoKeys(cave, sublevel) then 2 else 1
  {
    var b := BranchOf(cave, sublevel);
    if b.None? then Err(UnsupportedOperation(cave + "-" + IntText(sublevel)))
    else Ok(BranchKeys(b.value, layout))
  }

  /** The texts of `keys`, as the counter spells them. */
  function KeyTexts(keys: seq<Key>): (texts: seq<string>)
    ensures |texts| == |keys|
    ensures forall i :: 0 <= i < |keys| ==> texts[i] == KeyText(keys[i])
  {
    seq(|keys|, i requires 0 <= i < |keys| => KeyText(keys[i]))
  }

  /** Every key text the first `n` steps add, in order. */
  function SurveyKeyTexts(cave: string, sublevel: int, generate: int -> Layout, n: nat): seq<string>
    requires Supported(cave, sublevel)
  {
    if n == 0 then []
    else SurveyKeyTexts(cave, sublevel, generate, n - 1) + KeyTexts(StepKeys(cave, sublevel, generate(n - 1)).value)
  }

  /** What step `i` adds to the counter: its key texts, or the exception its branch throws. */
  function SurveySteps(cave: string, sublevel: int, generate: int -> Layout): nat -> Result<seq<string>> {
    i => var keys := StepKeys(cave, sublevel, generate(i));
      if keys.Err? then Err(keys.error) else Ok(KeyTexts(keys.value))
  }

  /** The texts steps 0 .. n-1 add, in order, or the exception of the first step that throws. */
  function RunTexts(step: nat -> Result<seq<string>>, n: nat): Result<seq<string>> {
    if n == 0 then Ok([])
    else
      var before := RunTexts(step, n - 1);
      if before.Err? then before
      else
        var added := step(n - 1);
        if added.Err? then Err(added.error) else Ok(before.value + added.value)
  }

  /** Once a step has thrown, the run stays failed with that exception. */
  lemma {:induction false} RunStaysFailed(step: nat -> Result<seq<string>>, i: nat, n: nat)
    requires i <= n && RunTexts(step, i).Err?
    ensures RunTexts(step, n) == RunTexts(step, i)
    decreases n - i
  {
    if i < n {
      RunStaysFailed(step, i, n - 1);
    }
  }

  /**
   * The survey's run: nothing for no steps, the exception of the first step for an
   * unsupported pair, and otherwise every step's key texts.
   */
  lemma {:induction false} SurveyRun(cave: string, sublevel: int, generate: int -> Layout, n: nat)
    ensures n == 0 ==> RunTexts(SurveySteps(cave, sublevel, generate), n) == Ok([])
    ensures n > 0 && !Supported(cave, sublevel) ==>
      RunTexts(SurveySteps(cave, sublevel, generate), n) == Err(UnsupportedOperation(cave + "-" + IntText(sublevel)))
    ensures Supported(cave, sublevel) ==>
      RunTexts(SurveySteps(cave, sublevel, generate), n) == Ok(SurveyKeyTexts(cave, sublevel, generate, n))
  {
    var step := SurveySteps(cave, sublevel, generate);
    if n > 0 {
      SurveyRun(cave, sublevel, generate, n - 1);
      if !Supported(cave, sublevel) {
        var keys := StepKeys(cave, sublevel, generate(0));
        assert keys == Err(UnsupportedOperation(cave + "-" + IntText(sublevel)));
        assert step(0) == Err(keys.error);
        assert RunTexts(step, 1) == Err(keys.error) by {
          assert RunTexts(step, 0) == Ok([]);
        }
        RunStaysFailed(step, 1, n);
      }
    }
  }

  // ---------------------------------------------------------------- the counter loop

  /** The counter after bumping each of `texts` in turn: the tally of what it held and `texts`. */
  method BumpAll(counter: Counts, ghost before: seq<string>, texts: seq<string>) returns (r: Counts)
    requires counter == Tally(before)
    ensures r == Tally(before + texts)
  {
    r := counter;
    ghost var done := before;
    var j := 0;
    while j < |texts|
      invariant 0 <= j <= |texts|
      invariant done == before + texts[..j]
      invariant r == Tally(done)
    {
      TallySnoc(done, texts[j]);
      SnocSlice(before, texts, j);
      r := Bump(r, texts[j]);
      done := done + [texts[j]];
      j := j + 1;
    }
    assert texts[..j] == texts;
  }

  lemma SnocSlice(before: seq<string>, texts: seq<string>, j: nat)
    requires j < |texts|
    ensures before + texts[..j + 1] == (before + texts[..j]) + [texts[j]]
  {
  }

  /**
   * The constructor's loop and print: `num` steps, each bumping its keys, then the
   * trial line.  The entries come out in the counter's iteration order, which the
   * hash map leaves unspecified and the model leaves open; `keys` is that order.
   */
  method Survey(cave: string, sublevel: int, seed: int, num: int, generate: int -> Layout)
    returns (r: Result<string>, counter: Counts, keys: seq<string>)
    ensures r.Err? <==> num > 0 && !Supported(cave, sublevel)
    ensures r.Err? ==> r.error == UnsupportedOperation(cave + "-" + IntText(sublevel))
    ensures r.Ok? && num > 0 ==> counter == Tally(SurveyKeyTexts(cave, sublevel, generate, num))
    ensures r.Ok? && num <= 0 ==> counter == map[]
    ensures r.Ok? ==> (forall k :: k in keys <==> k in counter) && |keys| == |counter|
    ensures r.Ok? ==> r.value == LineText(JavaHex08(seed), JavaHex08(num), counter, keys)
  {
    var n: nat := if num < 0 then 0 else num;
    SurveyRun(cave, sublevel, generate, n);
    var counted := CountSteps(SurveySteps(cave, sublevel, generate), n);
    if counted.Err? {
      return Err(counted.error), map[], [];
    }
    counter := counted.value;
    keys := EntryOrder(counter);
    var text := Serialize(seed, num, counter, keys);
    r := Ok(text);
  }

  /** The loop over the steps: each step's texts are bumped in turn; the first exception ends it. */
  method CountSteps(step: nat -> Result<seq<string>>, n: nat) returns (r: Result<Counts>)
    ensures r.Err? <==> RunTexts(step, n).Err?
    ensures r.Err? ==> r.error == RunTexts(step, n).error
    ensures r.Ok? ==> r.value == Tally(RunTexts(step, n).value)
  {
    var counter := map[];
    var i := 0;
    while i < n
      invariant 0 <= i <= n
      invariant RunTexts(step, i).Ok? && counter == Tally(RunTexts(step, i).value)
    {
      var added := step(i);
      if added.Err? {
        RunStaysFailed(step, i + 1, n);
        return Err(added.error);
      }
      counter := BumpAll(counter, RunTexts(step, i).value, added.value);
      i := i + 1;
    }
    r := Ok(counter);
  }

  /** Walks the counter's keys in some order, each exactly once. */
  method EntryOrder(counter: Counts) returns (keys: seq<string>)
    ensures forall k :: k in keys <==> k in counter
    ensures forall i, j :: 0 <= i < j < |keys| ==> keys[i] != keys[j]
    ensures |keys| == |counter|
  {
    keys := [];
    var rest := counter.Keys;
    while rest != {}
      invariant rest <= counter.Keys
      invariant forall k :: k in keys <==> k in counter && k !in rest
      invariant forall i, j :: 0 <= i < j < |keys| ==> keys[i] != keys[j]
      invariant |keys| + |rest| == |counter.Keys|
      decreases rest
    {
      var k :| k in rest;
      keys := keys + [k];
      rest := rest - {k};
    }
  }

  /** The result string, built as the Java loop builds it: a ", " before every entry but the first. */
  method Serialize(seed: int, num: int, counter: Counts, keys: seq<string>) returns (text: string)
    requires forall i :: 0 <= i < |keys| ==> keys[i] in counter
    ensures text == LineText(JavaHex08(seed), JavaHex08(num), counter, keys)
  {
    var body := "";
    var i := 0;
    while i < |keys|
      invariant 0 <= i <= |keys|
      invariant body == Join(EntryTexts(counter, keys[..i]), ", ")
    {
      var entry := "\"" + keys[i] + "\"" + ": " + IntText(counter[keys[i]]);
      EntryAppended(counter, keys, i);
      QuotedEntry(keys[i], counter[keys[i]]);
      JoinSnoc(EntryTexts(counter, keys[..i]), entry, ", ");
      if i != 0 {
        body := body + ", ";
      }
      body := body + entry;
      i := i + 1;
    }
    assert keys[..i] == keys;
    text := "{\"seed\": 0x" + JavaHex08(seed) + ", \"num\": 0x" + JavaHex08(num) + ", \"result\": {" + body + "}}";
  }

  /** The entry the Java loop appends for the `i`-th key is the next member of the line. */
  lemma EntryAppended(counter: Counts, keys: seq<string>, i: nat)
    requires forall j :: 0 <= j < |keys| ==> keys[j] in counter
    requires i < |keys|
    ensures EntryTexts(counter, keys[..i + 1]) == EntryTexts(counter, keys[..i]) + [EntryText(keys[i], counter[keys[i]])]
    ensures EntryTexts(counter, keys[..i]) == [] <==> i == 0
  {
    var a, b := EntryTexts(counter, keys[..i + 1]), EntryTexts(counter, keys[..i]);
    assert |a| == |b| + 1;
    assert forall j :: 0 <= j < i ==> a[j] == b[j];
    assert a[i] == EntryText(keys[i], counter[keys[i]]);
  }

  /** The Java loop's quoting of a key and its count is the line's member text. */
  lemma QuotedEntry(key: string, count: int)
    ensures "\"" + key + "\"" + ": " + IntText(count) == EntryText(key, count)
  {
    var q := "\"";
    assert q + key + q + ": " == q + key + "\": ";
  }

  // ---------------------------------------------------------------- what the counts add up to

  /** Every step adds one key, or two in the two-key branches. */
  lemma {:induction false} SurveyKeyCount(cave: string, sublevel: int, generate: int -> Layout, n: nat)
    requires Supported(cave, sublevel)
    ensures |SurveyKeyTexts(cave, sublevel, generate, n)| == n * (if TwoKeys(cave, sublevel) then 2 else 1)
  {
    if n > 0 {
      SurveyKeyCount(cave, sublevel, generate, n - 1);
    }
  }

  /** The counts total `num`, or `2 * num` in the two-key branches. */
  lemma CounterTotal(cave: string, sublevel: int, generate: int -> Layout, n: nat)
    requires Supported(cave, sublevel)
    ensures Total(Tally(SurveyKeyTexts(cave, sublevel, generate, n))) == n * (if TwoKeys(cave, sublevel) then 2 else 1)
  {
    TotalTally(SurveyKeyTexts(cave, sublevel, generate, n));
    SurveyKeyCount(cave, sublevel, generate, n);
  }

  /** Each key the counter writes is one the report's reader reads back field for field. */
  lemma StepKeysReadBack(cave: string, sublevel: int, layout: Layout, i: nat)
    requires StepKeys(cave, sublevel, layout).Ok? && i < |StepKeys(cave, sublevel, layout).value|
    ensures ParseKey(KeyText(StepKeys(cave, sublevel, layout).value[i])) == Some(StepKeys(cave, sublevel, layout).value[i])
  {
    var b := BranchOf(cave, sublevel).value;
    BranchKeysWellFormed(b, layout, i);
    KeyTextRoundTrip(BranchKeys(b, layout)[i]);
  }

  /** Every field a branch writes has a plain name and a boolean or integer value. */
  lemma BranchKeysWellFormed(b: Branch, layout: Layout, i: nat)
    requires i < |BranchKeys(b, layout)|
    ensures WellFormed(BranchKeys(b, layout)[i])
  {
    var key := BranchKeys(b, layout)[i];
    forall j | 0 <= j < |key| ensures WellFormedField(key[j]) {
      PlainName(key[j].name);
    }
  }

  /** The field names the counter writes. */
  const FieldNames: set<string> := {"murasakipom", "oogane", "whitepom", "fixedTamakokin", "popogashi",
    "chocolate", "yellowpom", "castanets", "onarashi", "kemekuji", "mitites", "eggs", "kocha", "yakicha",
    "ujimesu", "ujiosu", "tobinko", "elec", "geyser"}

  /** Every field name the counter writes is plain: letters only. */
  lemma PlainName(name: string)
    requires name in FieldNames
    ensures PlainText(name)
  {
    if name in {"murasakipom", "oogane", "whitepom", "fixedTamakokin", "popogashi"} {
      FirstNamesLetters(name);
    } else if name in {"chocolate", "yellowpom", "castanets", "onarashi", "kemekuji"} {
      MiddleNamesLetters(name);
    } else {
      LastNamesLetters(name);
    }
  }

  lemma FirstNamesLetters(name: string)
    requires name in {"murasakipom", "oogane", "whitepom", "fixedTamakokin", "popogashi"}
    ensures PlainText(name)
  {
  }

  lemma MiddleNamesLetters(name: string)
    requires name in {"chocolate", "yellowpom", "castanets", "onarashi", "kemekuji"}
    ensures PlainText(name)
  {
  }

  lemma LastNamesLetters(name: string)
    requires name in {"mitites", "eggs", "kocha", "yakicha", "ujimesu", "ujiosu", "tobinko", "elec", "geyser"}
    ensures PlainText(name)
  {
  }

  /** For seeds and counts a Java `int` holds without its sign bit, the printed line is the one the trial merger prints. */
  lemma SameLineAsMerger(seed: int, num: int, counter: Counts, keys: seq<string>)
    requires 0 <= seed < 0x8000_0000 && 0 <= num < 0x8000_0000
    requires forall i :: 0 <= i < |keys| ==> keys[i] in counter
    ensures LineText(JavaHex08(seed), JavaHex08(num), counter, keys) == LineText(PyHex08(seed), PyHex08(num), counter, keys)
  {
    HexRenderingsAgree(seed);
    HexRenderingsAgree(num);
  }

  // ---------------------------------------------------------------- what the branches detect

  /** A flag key holds exactly when some placed enemy has the target name. */
  lemma FlagBranches(layout: Layout)
    ensures StepKeys("FC", 4, layout) == Ok([[Field("murasakipom",
      Flag(exists i :: 0 <= i < |layout.tekis| && layout.tekis[i].name == "BlackPom"))]])
    ensures StepKeys("SC", 4, layout) == Ok([[Field("oogane",
      Flag(exists i :: 0 <= i < |layout.tekis| && layout.tekis[i].name == "Wealthy"))]])
  {
    NameIn(layout.tekis, "BlackPom");
    NameIn(layout.tekis, "Wealthy");
  }

  lemma NameIn(tekis: seq<Teki>, name: string)
    ensures name in TekiNames(tekis) <==> exists i :: 0 <= i < |tekis| && tekis[i].name == name
  {
    var names := TekiNames(tekis);
    if name in names {
      var i :| 0 <= i < |names| && names[i] == name;
      assert tekis[i].name == name;
    }
  }

  /** A number key is the number of placed enemies with the target name. */
  lemma NumberBranches(layout: Layout)
    ensures StepKeys("CH2", 2, layout) == Ok([[Field("mitites", Number(|set i | 0 <= i < |layout.tekis| && layout.tekis[i].name == "TamagoMushi"|))]])
    ensures StepKeys("CH8", 1, layout) == Ok([[Field("kocha", Number(|set i | 0 <= i < |layout.tekis| && layout.tekis[i].name == "Kochappy"|))]])
  {
    NamedCount(layout.tekis, "TamagoMushi");
    NamedCount(layout.tekis, "Kochappy");
  }

  /** The multiset count of a name is the number of positions holding it. */
  lemma {:induction false} NamedCount(tekis: seq<Teki>, name: string)
    ensures multiset(TekiNames(tekis))[name] == |NamedAt(tekis, name)|
    decreases |tekis|
  {
    if tekis != [] {
      var init := tekis[..|tekis| - 1];
      NamedCount(init, name);
      NamedAtSnoc(tekis, name);
      assert TekiNames(tekis) == TekiNames(init) + [tekis[|tekis| - 1].name];
    } else {
      assert NamedAt(tekis, name) == {};
    }
  }

  /** The positions of `tekis` holding an enemy named `name`. */
  function NamedAt(tekis: seq<Teki>, name: string): set<int> {
    set i | 0 <= i < |tekis| && tekis[i].name == name
  }

  /** The last position joins the positions of the rest exactly when it holds the name. */
  lemma NamedAtSnoc(tekis: seq<Teki>, name: string)
    requires tekis != []
    ensures var n := |tekis| - 1;
      && n !in NamedAt(tekis[..n], name)
      && NamedAt(tekis, name) == NamedAt(tekis[..n], name) + (if tekis[n].name == name then {n} else {})
  {
    var n := |tekis| - 1;
    var init := tekis[..n];
    assert forall i :: 0 <= i < n ==> init[i] == tekis[i];
  }

  /** The chocolate key ignores a Jigumo without an item and an item other than "chocolate". */
  lemma ChocolateBranch(layout: Layout)
    ensures StepKeys("CoS", 4, layout) == Ok([[Field("chocolate", Flag(
      exists i :: 0 <= i < |layout.tekis| && layout.tekis[i].name == "Jigumo" && layout.tekis[i].itemInside == Some("chocolate")))]])
  {
  }

  /** CH28-1 first counts the eggs together with the electric treasure, then the geyser. */
  lemma EggElecGeyser(layout: Layout)
    ensures StepKeys("CH28", 1, layout) == Ok([
      [Field("eggs", Number(multiset(TekiNames(layout.tekis))["Egg"])), Field("elec", Flag("ElecOtakara" in TekiNames(layout.tekis)))],
      [Field("geyser", Flag(layout.geyser))]])
    ensures KeyText(StepKeys("CH28", 1, layout).value[1]) == "{geyser: " + (if layout.geyser then "true" else "false") + "}"
  {
  }
}
