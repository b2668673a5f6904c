// The post-I/O half of loader.parse in demo/main.ts (filtering, decoding and ordering the
// <d> comment elements) and loader.assign (the property merge used for font options).

module Loader {

  import opened Options
  import opened JsText
  import opened Records

  // ---------------------------------------------------------------------------------------
  // Decoding one comment element

  /** One element of the array JSON.parse returns: a string, or any other JSON value (a
      number, null, a boolean, an array or an object) with the text String() gives it, which
      is what parseFloat and parseInt read. Only strings have split and replace. */
  datatype JsonValue = JsonString(s: string) | JsonOther(text: string)

  /** The text the number parsers read from an element. */
  function Text(v: JsonValue): string {
    match v
    case JsonString(s) => s
    case JsonOther(text) => text
  }

  /** One <d> element once the XML has been fetched and traversed: its "p" attribute, its
      innerHTML, and what JSON.parse makes of the trimmed innerHTML (None when JSON.parse
      throws; a text matching the bracket pattern always parses to an array). */
  datatype RawRecord = RawRecord(p: string, inner: string, json: Option<seq<JsonValue>>)

  /** content[2].split and content[4].replace throw a TypeError unless both are strings (a
      missing element is undefined). */
  predicate StringMethodsThrow(a: seq<JsonValue>) {
    |a| < 5 || !a[2].JsonString? || !a[4].JsonString?
  }

  /** Entry k of a split or parsed array; a missing entry reads as "", which the number
      parsers treat exactly as they treat undefined (both give NaN). */
  function Field(parts: seq<string>, k: nat): (f: string)
    ensures k < |parts| ==> f == parts[k]
    ensures k >= |parts| ==> f == ""
  {
    if k < |parts| then parts[k] else ""
  }

  /** /^\[(.*?)\]$/.test(s): a bracket at both ends, no line terminator in between. */
  predicate MatchesContentPattern(s: string) {
    && |s| >= 2 && s[0] == '[' && s[|s| - 1] == ']'
    && forall k :: 1 <= k < |s| - 1 ==> !IsLineTerminator(s[k])
  }

  /** "#" + ("000000" + n.toString(16)).slice(-6). */
  function ColorOf(n: Option<int>): (c: string)
    ensures |c| == 7 && c[0] == '#'
  {
    var h := "000000" + NumberToHex(n);
    "#" + h[|h| - 6..]
  }

  /** For a non-negative colour number the six digits are hexadecimal and spell out its
      low 24 bits: colours up to 0xffffff survive the formatting unchanged. */
  lemma ColorEncodesLow24(n: nat)
    ensures forall k :: 1 <= k < 7 ==> IsHexDigit(ColorOf(Some(n))[k])
    ensures HexValue(ColorOf(Some(n))[1..]) == n % 0x100_0000
  {
    var x := Hex(n);
    var h := "000000" + x;
    var c := ColorOf(Some(n));
    assert c[1..] == h[|h| - 6..];
    forall k | 1 <= k < 7 ensures IsHexDigit(c[k]) {
      assert c[k] == h[|h| - 6 + k - 1];
    }
    ZeroPadValue(x);
    HexRoundTrip(n);
    LastSixDigits(h);
  }

  lemma ZeroPadValue(x: string)
    ensures HexValue("000000" + x) == HexValue(x)
  {
    HexValueAppend("000000", x);
    HexValueZeros("000000");
  }

  /** The last six digits of a hexadecimal numeral denote its value modulo 16^6. */
  lemma LastSixDigits(h: string)
    requires |h| >= 6
    ensures HexValue(h[|h| - 6..]) == HexValue(h) % 0x100_0000
  {
    var hi, lo := h[..|h| - 6], h[|h| - 6..];
    assert h == hi + lo;
    SplitLastSix(hi, lo);
  }

  lemma SplitLastSix(hi: string, lo: string)
    requires |lo| == 6
    ensures HexValue(hi + lo) % 0x100_0000 == HexValue(lo)
  {
    HexValueAppend(hi, lo);
    HexValueBound(lo);
    Pow16Six();
    ModOfMulAdd(HexValue(hi), HexValue(lo));
  }

  lemma Pow16Six()
    ensures Pow16(6) == 0x100_0000
  {
    assert Pow16(2) == 0x100;
    assert Pow16(4) == 0x1_0000;
  }

  lemma ModOfMulAdd(v: nat, u: nat)
    requires u < 0x100_0000
    ensures (v * 0x100_0000 + u) % 0x100_0000 == u
  {
  }

  /** What the loop body does with one element: skip it, keep its decoded record, or throw
      (JSON.parse fails, or content[2] / content[4] is undefined), which aborts the whole
      handler so that the returned promise never resolves. */
  datatype Decoded = Skip | Keep(data: DanmakuData) | Throw

  /** The two filters of the loop body: mode 7 and the bracketed content pattern. */
  predicate Accepted(rec: RawRecord, parseInt: string -> Option<int>) {
    parseInt(Field(Split(rec.p, ','), 1)) == Some(7) && MatchesContentPattern(Trim(rec.inner))
  }

  function Decode(rec: RawRecord, parseFloat: string -> real, parseInt: string -> Option<int>)
    : (d: Decoded)
    ensures d.Skip? <==> !Accepted(rec, parseInt)
    ensures d.Throw? <==> Accepted(rec, parseInt) && (rec.json.None? || StringMethodsThrow(rec.json.value))
    ensures d.Keep? ==> d.data.mode == 7 && |d.data.color| == 7 && NoBreakMarker(d.data.content.text)
  {
    if !Accepted(rec, parseInt) then Skip
    else if rec.json.None? || StringMethodsThrow(rec.json.value) then Throw
    else Keep(DecodeFields(Split(rec.p, ','), rec.json.value, parseFloat, parseInt))
  }

  /** The record built from the split attributes and the parsed content array. */
  function DecodeFields(attrs: seq<string>, a: seq<JsonValue>, parseFloat: string -> real,
                        parseInt: string -> Option<int>): (d: DanmakuData)
    requires !StringMethodsThrow(a)
    ensures d.mode == 7 && |d.color| == 7 && NoBreakMarker(d.content.text)
  {
    var texts := seq(|a|, k requires 0 <= k < |a| => Text(a[k]));
    var opacities := Split(a[2].s, '-');
    var content := Content(
      startX := parseFloat(texts[0]),
      startY := parseFloat(texts[1]),
      startOpacity := parseFloat(Field(opacities, 0)),
      endOpacity := parseFloat(Field(opacities, 1)),
      duration := parseFloat(texts[3]),
      text := NormalizeBreaks(a[4].s),
      rotateZ := parseInt(Field(texts, 5)),
      rotateY := parseInt(Field(texts, 6)),
      endX := parseFloat(Field(texts, 7)),
      endY := parseFloat(Field(texts, 8)),
      aTime := parseInt(Field(texts, 9)),
      delay := parseInt(Field(texts, 10)),
      family := Field(texts, 12));
    DanmakuData(
      playTime := parseFloat(Field(attrs, 0)),
      mode := 7,
      fontSize := parseInt(Field(attrs, 2)),
      color := ColorOf(parseInt(Field(attrs, 3))),
      dmId := parseInt(Field(attrs, 7)),
      content := content)
  }

  /** The "a-b" opacity pair is split at the dash: each end is parsed from its own piece. */
  lemma OpacityPairSplit(rec: RawRecord, parseFloat: string -> real,
                         parseInt: string -> Option<int>, a: string, b: string)
    requires Accepted(rec, parseInt) && rec.json.Some? && !StringMethodsThrow(rec.json.value)
    requires rec.json.value[2] == JsonString(a + "-" + b) && '-' !in a && '-' !in b
    ensures Decode(rec, parseFloat, parseInt).Keep?
    ensures Decode(rec, parseFloat, parseInt).data.content.startOpacity == parseFloat(a)
    ensures Decode(rec, parseFloat, parseInt).data.content.endOpacity == parseFloat(b)
  {
    SplitAround(a, b, '-');
    var pieces := Split(a + "-" + b, '-');
    assert Field(pieces, 0) == a;
    assert Field(pieces, 1) == Split(b, '-')[0];
    SplitWithoutSeparator(b, '-');
  }

  lemma {:induction false} SplitWithoutSeparator(s: string, sep: char)
    requires sep !in s
    ensures Split(s, sep) == [s]
    decreases |s|
  {
    if s != [] {
      SplitWithoutSeparator(s[1..], sep);
      assert [s[0]] + s[1..] == s;
    }
  }

  lemma {:induction false} SplitAround(a: string, b: string, sep: char)
    requires sep !in a && sep !in b
    ensures Split(a + [sep] + b, sep) == [a] + Split(b, sep)
    decreases |a|
  {
    if a == [] {
      assert a + [sep] + b == [sep] + b;
      assert ([sep] + b)[1..] == b;
    } else {
      SplitAround(a[1..], b, sep);
      assert (a + [sep] + b)[1..] == a[1..] + [sep] + b;
      assert [a[0]] + a[1..] == a;
    }
  }

  // ---------------------------------------------------------------------------------------
  // The loop over all elements, then the sort

  /** What the loop body does with each element, in order. */
  function Outcomes(recs: seq<RawRecord>, parseFloat: string -> real,
                    parseInt: string -> Option<int>): (outs: seq<Decoded>)
    ensures |outs| == |recs|
    ensures forall i :: 0 <= i < |recs| ==> outs[i] == Decode(recs[i], parseFloat, parseInt)
  {
    seq(|recs|, i requires 0 <= i < |recs| => Decode(recs[i], parseFloat, parseInt))
  }

  /** The records pushed by the loop over a run of outcomes, or None once one has thrown. */
  function Collect(outs: seq<Decoded>): (r: Option<seq<DanmakuData>>)
    ensures r.Some? ==> |r.value| <= |outs|
    decreases |outs|
  {
    if outs == [] then Some([]) else Push(Collect(outs[..|outs| - 1]), outs[|outs| - 1])
  }

  /** One turn of the loop: a skipped element pushes nothing, a kept one pushes its record. */
  function Push(pushed: Option<seq<DanmakuData>>, outcome: Decoded): Option<seq<DanmakuData>> {
    match pushed
    case None => None
    case Some(p) =>
      match outcome
      case Skip => Some(p)
      case Throw => None
      case Keep(d) => Some(p + [d])
  }

  lemma CollectPrefix(outs: seq<Decoded>, i: nat)
    requires i < |outs|
    ensures Collect(outs[..i + 1]) == Push(Collect(outs[..i]), outs[i])
  {
    assert outs[..i + 1][..i] == outs[..i];
  }

  function CountKept(outs: seq<Decoded>): nat
    decreases |outs|
  {
    if outs == [] then 0
    else CountKept(outs[..|outs| - 1]) + (if outs[|outs| - 1].Keep? then 1 else 0)
  }

  /** The number of elements that pass both filters. */
  function CountAccepted(recs: seq<RawRecord>, parseInt: string -> Option<int>): nat
    decreases |recs|
  {
    if recs == [] then 0
    else CountAccepted(recs[..|recs| - 1], parseInt)
         + (if Accepted(recs[|recs| - 1], parseInt) then 1 else 0)
  }

  predicate SortedByPlayTime(s: seq<DanmakuData>) {
    forall i, j :: 0 <= i < j < |s| ==> s[i].playTime <= s[j].playTime
  }

  /** Places d before the first element that is not earlier than it. */
  function Insert(d: DanmakuData, s: seq<DanmakuData>): (r: seq<DanmakuData>)
    ensures multiset(r) == multiset(s) + multiset{d}
    ensures |r| == |s| + 1
    ensures r[0] == if s == [] || d.playTime <= s[0].playTime then d else s[0]
  {
    if s == [] || d.playTime <= s[0].playTime then [d] + s
    else
      var rest := Insert(d, s[1..]);
      assert s == [s[0]] + s[1..];
      [s[0]] + rest
  }

  /** Inserting into an ordered sequence keeps it ordered. */
  lemma {:induction false} InsertSorted(d: DanmakuData, s: seq<DanmakuData>)
    requires SortedByPlayTime(s)
    ensures SortedByPlayTime(Insert(d, s))
  {
    if s != [] && d.playTime > s[0].playTime {
      var rest := Insert(d, s[1..]);
      InsertSorted(d, s[1..]);
      var r := [s[0]] + rest;
      assert Insert(d, s) == r;
      forall i, j | 0 <= i < j < |r| ensures r[i].playTime <= r[j].playTime {
        if i == 0 {
          assert r[j] == rest[j - 1];
        } else {
          assert r[i] == rest[i - 1] && r[j] == rest[j - 1];
        }
      }
    }
  }

  /** Array.prototype.sort with the comparator pre.playTime - next.playTime (a stable
      insertion sort): ascending activation time, same records. */
  function SortByPlayTime(s: seq<DanmakuData>): (r: seq<DanmakuData>)
    ensures multiset(r) == multiset(s)
    ensures SortedByPlayTime(r)
  {
    if s == [] then []
    else
      assert s == [s[0]] + s[1..];
      InsertSorted(s[0], SortByPlayTime(s[1..]));
      Insert(s[0], SortByPlayTime(s[1..]))
  }

  /** The records of s activated at time p, in their order in s. */
  function AtPlayTime(s: seq<DanmakuData>, p: real): seq<DanmakuData>
    decreases |s|
  {
    if s == [] then [] else (if s[0].playTime == p then [s[0]] else []) + AtPlayTime(s[1..], p)
  }

  /** Insert places d before the records of its own time: only d's own group changes. */
  lemma {:induction false} InsertStable(d: DanmakuData, s: seq<DanmakuData>, p: real)
    ensures AtPlayTime(Insert(d, s), p) == (if d.playTime == p then [d] else []) + AtPlayTime(s, p)
    decreases |s|
  {
    if s == [] || d.playTime <= s[0].playTime {
      AtPlayTimeCons(d, s, p);
    } else {
      var rest := Insert(d, s[1..]);
      assert Insert(d, s) == [s[0]] + rest;
      AtPlayTimeCons(s[0], rest, p);
      InsertStable(d, s[1..], p);
      var mine := if d.playTime == p then [d] else [];
      var first := if s[0].playTime == p then [s[0]] else [];
      assert AtPlayTime(s, p) == first + AtPlayTime(s[1..], p);
      assert mine == [] || first == [];
    }
  }

  lemma AtPlayTimeCons(x: DanmakuData, s: seq<DanmakuData>, p: real)
    ensures AtPlayTime([x] + s, p) == (if x.playTime == p then [x] else []) + AtPlayTime(s, p)
  {
    assert ([x] + s)[1..] == s;
  }

  /** The sort is stable: records with equal activation times keep their relative order. */
  lemma {:induction false} SortStable(s: seq<DanmakuData>, p: real)
    ensures AtPlayTime(SortByPlayTime(s), p) == AtPlayTime(s, p)
    decreases |s|
  {
    if s != [] {
      SortStable(s[1..], p);
      InsertStable(s[0], SortByPlayTime(s[1..]), p);
    }
  }

  /** The value the promise of loader.parse resolves with; None when it never resolves. */
  function ParseResult(recs: seq<RawRecord>, parseFloat: string -> real,
                       parseInt: string -> Option<int>): (r: Option<seq<DanmakuData>>)
    ensures r.None? <==> Collect(Outcomes(recs, parseFloat, parseInt)).None?
    ensures r.Some? ==> SortedByPlayTime(r.value)
    ensures r.Some? ==> multiset(r.value) == multiset(Collect(Outcomes(recs, parseFloat, parseInt)).value)
  {
    match Collect(Outcomes(recs, parseFloat, parseInt))
    case None => None
    case Some(pushed) => Some(SortByPlayTime(pushed))
  }

  /** The decoding loop of loader.parse followed by the in-place sort. */
  method Parse(recs: seq<RawRecord>, parseFloat: string -> real, parseInt: string -> Option<int>)
    returns (result: Option<seq<DanmakuData>>)
    ensures result == ParseResult(recs, parseFloat, parseInt)
  {
    ghost var outs := Outcomes(recs, parseFloat, parseInt);
    var danmakuDataArray: seq<DanmakuData> := [];
    for i := 0 to |recs|
      invariant Collect(outs[..i]) == Some(danmakuDataArray)
    {
      var outcome := Decode(recs[i], parseFloat, parseInt);
      CollectPrefix(outs, i);
      match outcome
      case Skip =>
      case Throw =>
        CollectNoneSticks(outs, i + 1);
        return None;
      case Keep(d) =>
        danmakuDataArray := danmakuDataArray + [d];
    }
    assert outs[..|recs|] == outs;
    result := Some(SortByPlayTime(danmakuDataArray));
  }

  /** Once a prefix has thrown, the whole run has. */
  lemma {:induction false} CollectNoneSticks(outs: seq<Decoded>, n: nat)
    requires n <= |outs| && Collect(outs[..n]) == None
    ensures Collect(outs) == None
    decreases |outs| - n
  {
    if n < |outs| {
      assert outs[..n + 1][..n] == outs[..n];
      CollectNoneSticks(outs, n + 1);
    } else {
      assert outs[..n] == outs;
    }
  }

  /** The loop throws exactly when one of its outcomes does. */
  lemma {:induction false} CollectThrowsIff(outs: seq<Decoded>)
    ensures Collect(outs).None? <==> Throw in outs
    decreases |outs|
  {
    if outs != [] {
      var init := outs[..|outs| - 1];
      CollectThrowsIff(init);
      assert outs == init + [outs[|outs| - 1]];
    }
  }

  /** Without a throw, the loop pushes one record per kept outcome... */
  lemma {:induction false} CollectCounts(outs: seq<Decoded>)
    requires Collect(outs).Some?
    ensures |Collect(outs).value| == CountKept(outs)
    decreases |outs|
  {
    if outs != [] {
      CollectCounts(outs[..|outs| - 1]);
    }
  }

  /** ...and pushes exactly the records of the kept outcomes. */
  lemma {:induction false} CollectMembers(outs: seq<Decoded>, d: DanmakuData)
    requires Collect(outs).Some?
    ensures d in Collect(outs).value <==> Keep(d) in outs
    decreases |outs|
  {
    if outs != [] {
      var init := outs[..|outs| - 1];
      var last := outs[|outs| - 1];
      CollectMembers(init, d);
      assert outs == init + [last];
      assert Keep(d) in outs <==> Keep(d) in init || last == Keep(d);
    }
  }

  /** Without a throw, the kept outcomes are exactly the accepted elements. */
  lemma {:induction false} CountKeptIsAccepted(recs: seq<RawRecord>, parseFloat: string -> real,
                                               parseInt: string -> Option<int>)
    requires Throw !in Outcomes(recs, parseFloat, parseInt)
    ensures CountKept(Outcomes(recs, parseFloat, parseInt)) == CountAccepted(recs, parseInt)
    decreases |recs|
  {
    if recs != [] {
      var outs := Outcomes(recs, parseFloat, parseInt);
      var init := recs[..|recs| - 1];
      assert Outcomes(init, parseFloat, parseInt) == outs[..|outs| - 1];
      CountKeptIsAccepted(init, parseFloat, parseInt);
      assert outs[|outs| - 1] in outs;
    }
  }

  /** loader.parse fails to resolve exactly when an accepted element throws. */
  lemma ParseFailsIff(recs: seq<RawRecord>, parseFloat: string -> real,
                      parseInt: string -> Option<int>)
    ensures ParseResult(recs, parseFloat, parseInt).None?
            <==> exists i :: 0 <= i < |recs| && Decode(recs[i], parseFloat, parseInt).Throw?
  {
    var outs := Outcomes(recs, parseFloat, parseInt);
    CollectThrowsIff(outs);
    assert Throw in outs <==> exists i :: 0 <= i < |recs| && outs[i].Throw?;
  }

  /** Otherwise it resolves with one record per accepted element, in ascending activation
      time. */
  lemma ParseSortedAndCounted(recs: seq<RawRecord>, parseFloat: string -> real,
                              parseInt: string -> Option<int>)
    requires ParseResult(recs, parseFloat, parseInt).Some?
    ensures SortedByPlayTime(ParseResult(recs, parseFloat, parseInt).value)
    ensures |ParseResult(recs, parseFloat, parseInt).value| == CountAccepted(recs, parseInt)
  {
    var outs := Outcomes(recs, parseFloat, parseInt);
    CollectThrowsIff(outs);
    var pushed := Collect(outs).value;
    CollectCounts(outs);
    CountKeptIsAccepted(recs, parseFloat, parseInt);
    var out := SortByPlayTime(pushed);
    assert |out| == |multiset(out)| == |multiset(pushed)| == |pushed|;
  }

  /** Records with equal activation times come out in the order of their elements. */
  lemma ParseStable(recs: seq<RawRecord>, parseFloat: string -> real,
                    parseInt: string -> Option<int>, p: real)
    requires ParseResult(recs, parseFloat, parseInt).Some?
    ensures AtPlayTime(ParseResult(recs, parseFloat, parseInt).value, p)
            == AtPlayTime(Collect(Outcomes(recs, parseFloat, parseInt)).value, p)
  {
    SortStable(Collect(Outcomes(recs, parseFloat, parseInt)).value, p);
  }

  /** The records it resolves with are exactly those the accepted elements decode to. */
  lemma ParseMembers(recs: seq<RawRecord>, parseFloat: string -> real,
                     parseInt: string -> Option<int>, d: DanmakuData)
    requires ParseResult(recs, parseFloat, parseInt).Some?
    ensures d in ParseResult(recs, parseFloat, parseInt).value
            <==> exists i :: 0 <= i < |recs| && Decode(recs[i], parseFloat, parseInt) == Keep(d)
  {
    var outs := Outcomes(recs, parseFloat, parseInt);
    var pushed := Collect(outs).value;
    var out := SortByPlayTime(pushed);
    CollectMembers(outs, d);
    assert d in out <==> d in multiset(out);
    assert Keep(d) in outs <==> exists i :: 0 <= i < |recs| && outs[i] == Keep(d);
  }

  /** Every record it resolves with is a mode-7 comment with a seven-character colour and a text
      whose line breaks are all '\r'. */
  lemma ParseRecordsWellFormed(recs: seq<RawRecord>, parseFloat: string -> real,
                               parseInt: string -> Option<int>, k: nat)
    requires ParseResult(recs, parseFloat, parseInt).Some?
    requires k < |ParseResult(recs, parseFloat, parseInt).value|
    ensures var d := ParseResult(recs, parseFloat, parseInt).value[k];
            d.mode == 7 && |d.color| == 7 && NoBreakMarker(d.content.text)
  {
    var d := ParseResult(recs, parseFloat, parseInt).value[k];
    ParseMembers(recs, parseFloat, parseInt, d);
    var i :| 0 <= i < |recs| && Decode(recs[i], parseFloat, parseInt) == Keep(d);
  }

  // ---------------------------------------------------------------------------------------
  // loader.assign

  /** The JavaScript values an object's properties may hold. */
  datatype JsValue = Undefined | Null | Bool(b: bool) | Num(n: real) | Str(s: string) | Ref(obj: JsObject)

  /** A plain JavaScript object: its own enumerable properties. */
  class JsObject {
    var props: map<string, JsValue>

    constructor ()
      ensures props == map[]
    {
      props := map[];
    }
  }

  /** The own properties of each source in turn, merged left to right into base; later
      sources overwrite earlier ones. */
  function MergeAll(base: map<string, JsValue>, sources: seq<map<string, JsValue>>)
    : (r: map<string, JsValue>)
    ensures base.Keys <= r.Keys
    ensures forall j :: 0 <= j < |sources| ==> sources[j].Keys <= r.Keys
    decreases |sources|
  {
    if sources == [] then base
    else MergeAll(base, sources[..|sources| - 1]) + sources[|sources| - 1]
  }

  /** A key set by some source ends up with the value of the last source that sets it. */
  lemma {:induction false} MergeLastWriterWins(base: map<string, JsValue>,
                                               sources: seq<map<string, JsValue>>,
                                               p: string, k: nat)
    requires k < |sources| && p in sources[k]
    requires forall j :: k < j < |sources| ==> p !in sources[j]
    ensures p in MergeAll(base, sources) && MergeAll(base, sources)[p] == sources[k][p]
    decreases |sources|
  {
    if k < |sources| - 1 {
      MergeLastWriterWins(base, sources[..|sources| - 1], p, k);
    }
  }

  /** A key no source sets keeps its value from base, and a key is present after the merge
      exactly when base or some source has it. */
  lemma {:induction false} MergeKeepsUntouched(base: map<string, JsValue>,
                                               sources: seq<map<string, JsValue>>, p: string)
    ensures p in MergeAll(base, sources)
            <==> p in base || exists j :: 0 <= j < |sources| && p in sources[j]
    ensures (forall j :: 0 <= j < |sources| ==> p !in sources[j]) && p in base
            ==> MergeAll(base, sources)[p] == base[p]
    decreases |sources|
  {
    if sources != [] {
      var init := sources[..|sources| - 1];
      MergeKeepsUntouched(base, init, p);
      assert forall j :: 0 <= j < |init| ==> init[j] == sources[j];
    }
  }

  /** The objects whose properties get copied: every argument after the first that is
      neither null nor the target itself. */
  ghost function CopiedFrom(args: seq<JsObject?>): set<JsObject>
  {
    set i | 1 <= i < |args| && args[i] != null && args[i] != args[0] :: args[i]
  }

  /** What each argument after the first contributes. A null argument contributes nothing,
      and neither does the target itself: copying an object onto itself changes nothing. */
  ghost function Sources(args: seq<JsObject?>, upTo: nat): seq<map<string, JsValue>>
    requires 1 <= upTo <= |args|
    reads CopiedFrom(args)
    ensures |Sources(args, upTo)| == upTo - 1
    decreases upTo
  {
    if upTo == 1 then []
    else
      var value := args[upTo - 1];
      Sources(args, upTo - 1)
      + [if value == null || value == args[0] then map[] else value.props]
  }

  /** The for-in loop of loader.assign over one argument: every own property of value is
      written onto output. When value is output itself, each write puts back the value that
      is already there. */
  method CopyOwnProperties(output: JsObject, value: JsObject)
    modifies output
    ensures value != output ==> output.props == old(output.props) + old(value.props)
    ensures value == output ==> output.props == old(output.props)
  {
    ghost var before := output.props;
    ghost var source := value.props;
    var keys := value.props.Keys;
    while keys != {}
      invariant keys <= source.Keys
      invariant value == output ==> output.props == before
      invariant value != output ==> value.props == source
      invariant value != output ==>
        output.props == before + map p | p in source.Keys - keys :: source[p]
      decreases keys
    {
      var prop :| prop in keys;
      output.props := output.props[prop := value.props[prop]];
      keys := keys - {prop};
    }
    assert value != output ==> (map p | p in source.Keys - {} :: source[p]) == source;
  }

  /** What argument k contributes, as read from Sources. */
  lemma {:induction false} SourcesAt(args: seq<JsObject?>, upTo: nat, k: nat)
    requires 1 <= k < upTo <= |args|
    ensures Sources(args, upTo)[k - 1]
            == if args[k] == null || args[k] == args[0] then map[] else args[k].props
    decreases upTo
  {
    if k < upTo - 1 {
      SourcesAt(args, upTo - 1, k);
    }
  }

  /** The args.forEach loop of loader.assign, writing onto output. */
  method CopyArguments(output: JsObject, args: seq<JsObject?>)
    requires |args| >= 1 && output !in CopiedFrom(args)
    requires args[0] != null ==> output == args[0]
    modifies output
    ensures output.props == MergeAll(old(output.props), old(Sources(args, |args|)))
  {
    ghost var base := output.props;
    ghost var sources := Sources(args, |args|);
    forall k | 1 <= k < |args|
      ensures sources[k - 1]
              == if args[k] == null || args[k] == args[0] then map[] else args[k].props
    {
      SourcesAt(args, |args|, k);
    }
    var index := 1;
    while index < |args|
      invariant 1 <= index <= |args|
      invariant output.props == MergeAll(base, sources[..index - 1])
      invariant forall k :: 1 <= k < |args| && (args[k] == null || args[k] == args[0]) ==>
                  sources[k - 1] == map[]
      invariant forall k :: 1 <= k < |args| && args[k] != null && args[k] != args[0] ==>
                  args[k].props == sources[k - 1]
    {
      var value := args[index];
      assert sources[..index][..index - 1] == sources[..index - 1];
      if value == null {
        assert output.props == output.props + map[];
      } else if value == output {
        CopyOwnProperties(output, value);
        assert output.props == output.props + map[];
      } else {
        assert value in CopiedFrom(args);
        CopyOwnProperties(output, value);
      }
      index := index + 1;
    }
    assert sources[..|args| - 1] == sources;
  }

  /** loader.assign(...args): with fewer than two arguments it returns args[0] untouched;
      otherwise it copies the own properties of every later non-null argument, in order,
      onto args[0] itself (or onto a new object when args[0] is null) and returns it. */
  method Assign(args: seq<JsObject?>) returns (output: JsObject?)
    modifies if |args| > 1 && args[0] != null then {args[0]} else {}
    ensures |args| == 0 ==> output == null
    ensures |args| == 1 ==> output == args[0]
    ensures |args| > 1 && args[0] != null ==> output == args[0]
    ensures |args| > 1 && args[0] == null ==> output != null && fresh(output)
    ensures |args| > 1 ==>
              && output != null
              && output.props == MergeAll(if args[0] == null then map[] else old(args[0].props),
                                          old(Sources(args, |args|)))
  {
    if |args| <= 1 {
      return if |args| == 0 then null else args[0];
    }
    if args[0] != null {
      output := args[0];
    } else {
      output := new JsObject();
    }
    CopyArguments(output, args);
  }
}
