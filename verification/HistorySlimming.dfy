/** History slimming: `_slim_response_create_payload_for_upstream` and its helpers in
    app/core/clients/proxy.py. */
module HistorySlimming {
  import opened Common
  import opened Json

  // ----- Text -----

  predicate StartsWith(s: string, prefix: string) { |prefix| <= |s| && s[..|prefix|] == prefix }

  predicate Contains(s: string, sub: string) {
    StartsWith(s, sub) || (s != [] && Contains(s[1..], sub))
  }

  const IMAGE_PREFIX := "data:image/"
  const MAX_TOOL_OUTPUT := 32 * 1024

  function Utf8Width(c: char): nat {
    if c < '\U{80}' then 1 else if c < '\U{800}' then 2 else if c < '\U{10000}' then 3 else 4
  }

  function Utf8Len(s: string): nat { if s == [] then 0 else Utf8Width(s[0]) + Utf8Len(s[1..]) }

  function Digit(d: nat): char
    requires d < 10
  {
    '0' + d as char
  }

  function Decimal(n: nat): string {
    if n < 10 then [Digit(n)] else Decimal(n / 10) + [Digit(n % 10)]
  }

  const NOTICE_HEAD := "[codex-lb omitted historical tool output ("
  const NOTICE_TAIL := " bytes) to fit upstream websocket budget]"

  function ToolNotice(bytes: nat): string { NOTICE_HEAD + Decimal(bytes) + NOTICE_TAIL }

  const IMAGE_NOTICE := "[codex-lb omitted historical inline image to fit upstream websocket budget]"

  predicate InlineReference(v: Json) { v.Str? && StartsWith(v.s, IMAGE_PREFIX) }

  predicate ShouldSlimOutput(output: string) {
    Contains(output, IMAGE_PREFIX) || Utf8Len(output) > MAX_TOOL_OUTPUT
  }

  /** ASCII text without a colon. */
  predicate Plain(s: string) { forall i :: 0 <= i < |s| ==> s[i] != ':' && s[i] < '\U{80}' }

  lemma {:induction false} PlainTextStays(s: string)
    requires Plain(s)
    ensures !Contains(s, IMAGE_PREFIX) && Utf8Len(s) == |s|
  {
    assert IMAGE_PREFIX[4] == ':';
    if s != [] {
      PlainTextStays(s[1..]);
    }
  }

  lemma {:induction false} DecimalDigits(n: nat)
    ensures Plain(Decimal(n))
  {
    if n >= 10 { DecimalDigits(n / 10); }
  }

  function Pow10(k: nat): nat { if k == 0 then 1 else 10 * Pow10(k - 1) }

  lemma {:induction false} DecimalLength(n: nat, k: nat)
    requires k >= 1 && n < Pow10(k)
    ensures |Decimal(n)| <= k
  {
    if n >= 10 {
      DecimalLength(n / 10, k - 1);
    }
  }

  /** The length of a Python string is at most 2^63 - 1 characters of at most four bytes. */
  predicate Storable(s: string) { Utf8Len(s) < Pow10(20) }

  /** A notice is itself never slimmed. */
  lemma {:induction false} NoticeStays(bytes: nat)
    requires bytes < Pow10(20)
    ensures !ShouldSlimOutput(ToolNotice(bytes))
  {
    NoticeIsPlain(bytes);
    DecimalLength(bytes, 20);
    PlainTextStays(ToolNotice(bytes));
  }

  lemma {:induction false} PlainConcat(a: string, b: string)
    requires Plain(a) && Plain(b)
    ensures Plain(a + b)
  {
  }

  lemma {:induction false} NoticeIsPlain(bytes: nat)
    ensures Plain(ToolNotice(bytes))
  {
    assert Plain(NOTICE_HEAD);
    assert Plain(NOTICE_TAIL);
    DecimalDigits(bytes);
    PlainConcat(NOTICE_HEAD, Decimal(bytes));
    PlainConcat(NOTICE_HEAD + Decimal(bytes), NOTICE_TAIL);
  }

  // ----- What slimming looks for -----

  predicate HasType(fields: Fields, t: string) { Get(fields, "type") == Str(t) }

  /** A content part that carries an inline image. */
  predicate InlinePart(part: Json) {
    && part.Obj?
    && var url := Get(part.fields, "image_url");
       || (HasType(part.fields, "input_image") && InlineReference(url))
       || (HasType(part.fields, "image_url") && InlineReference(if url.Obj? then Get(url.fields, "url") else url))
  }

  predicate InlineItem(item: Json) {
    item.Obj? && HasType(item.fields, "input_image") && InlineReference(Get(item.fields, "image_url"))
  }

  predicate LargeOutput(item: Json) {
    && item.Obj? && HasType(item.fields, "function_call_output")
    && Get(item.fields, "output").Str? && ShouldSlimOutput(Get(item.fields, "output").s)
  }

  function CountInline(parts: seq<Json>): nat {
    if parts == [] then 0 else (if InlinePart(parts[0]) then 1 else 0) + CountInline(parts[1..])
  }

  function InlineInContent(content: Json): nat {
    match content
    case Obj(_) => if InlinePart(content) then 1 else 0
    case Arr(parts) => CountInline(parts)
    case _ => 0
  }

  /** Inline images that slimming an item removes, and large tool outputs. */
  function Images(item: Json): nat {
    if item.Obj?
    then InlineInContent(Get(item.fields, "content")) + if InlineItem(item) then 1 else 0
    else 0
  }

  function Outputs(item: Json): nat { if LargeOutput(item) then 1 else 0 }

  predicate Clean(item: Json) { Images(item) == 0 && Outputs(item) == 0 }

  // ----- The rewrite -----

  const NOTICE_PART := Obj(map["type" := Str("input_text"), "text" := Str(IMAGE_NOTICE)])
  const NOTICE_ITEM := Obj(map["role" := Str("user"), "content" := Arr([NOTICE_PART])])

  function SlimPart(part: Json): Json { if InlinePart(part) then NOTICE_PART else part }

  function SlimParts(parts: seq<Json>): (r: seq<Json>)
    ensures |r| == |parts| && forall i :: 0 <= i < |r| ==> r[i] == SlimPart(parts[i])
  {
    seq(|parts|, i requires 0 <= i < |parts| => SlimPart(parts[i]))
  }

  function SlimContent(content: Json): Json {
    match content
    case Obj(_) => SlimPart(content)
    case Arr(parts) => Arr(SlimParts(parts))
    case _ => content
  }

  function SlimItem(item: Json): Json {
    if !item.Obj? then item
    else if InlineItem(item) then NOTICE_ITEM
    else
      var fields := if LargeOutput(item)
                    then item.fields["output" := Str(ToolNotice(Utf8Len(Get(item.fields, "output").s)))]
                    else item.fields;
      var content := Get(item.fields, "content");
      Obj(if InlineInContent(content) > 0 then fields["content" := SlimContent(content)] else fields)
  }

  predicate IsUser(item: Json) { item.Obj? && Get(item.fields, "role") == Str("user") }

  function LastUser(items: seq<Json>): (r: Option<nat>)
    ensures r.None? ==> forall i :: 0 <= i < |items| ==> !IsUser(items[i])
    ensures r.Some? ==> r.value < |items| && IsUser(items[r.value])
    ensures r.Some? ==> forall i :: r.value < i < |items| ==> !IsUser(items[i])
  {
    if items == [] then None
    else if IsUser(items[|items| - 1]) then Some(|items| - 1)
    else
      var r := LastUser(items[..|items| - 1]);
      assert forall i :: 0 <= i < |items| - 1 ==> items[..|items| - 1][i] == items[i];
      r
  }

  /** The recent suffix starts at the last user item, or at 0 if there is none. */
  function RecentStart(items: seq<Json>): nat {
    match LastUser(items) case Some(i) => i case None => 0
  }

  datatype Summary = Summary(outputs: nat, images: nat)

  function Total(items: seq<Json>): Summary {
    if items == [] then Summary(0, 0)
    else
      var front := Total(items[..|items| - 1]);
      var last := items[|items| - 1];
      Summary(front.outputs + Outputs(last), front.images + Images(last))
  }

  // ----- The functions as the source runs them -----

  method RecentSuffixStart(items: seq<Json>) returns (start: nat)
    ensures start == RecentStart(items)
  {
    var last: Option<nat> := None;
    for i := 0 to |items|
      invariant last.None? ==> forall j :: 0 <= j < i ==> !IsUser(items[j])
      invariant last.Some? ==> last.value < i && IsUser(items[last.value])
      invariant last.Some? ==> forall j :: last.value < j < i ==> !IsUser(items[j])
    {
      if IsUser(items[i]) {
        last := Some(i);
      }
    }
    return if last.Some? then last.value else 0;
  }

  method SlimHistoricalPart(part: Json) returns (slimmed: Json, images: nat)
    ensures slimmed == SlimPart(part) && images == if InlinePart(part) then 1 else 0
  {
    if !part.Obj? {
      return part, 0;
    }
    var url := Get(part.fields, "image_url");
    if HasType(part.fields, "input_image") && InlineReference(url) {
      return NOTICE_PART, 1;
    }
    if HasType(part.fields, "image_url") {
      if url.Obj? {
        url := Get(url.fields, "url");
      }
      if InlineReference(url) {
        return NOTICE_PART, 1;
      }
    }
    return part, 0;
  }

  method SlimHistoricalContent(content: Json) returns (slimmed: Json, images: nat)
    ensures slimmed == SlimContent(content) && images == InlineInContent(content)
  {
    if content.Obj? {
      slimmed, images := SlimHistoricalPart(content);
      return;
    }
    if !content.Arr? {
      return content, 0;
    }
    var parts: seq<Json> := [];
    images := 0;
    for i := 0 to |content.items|
      invariant parts == SlimParts(content.items[..i])
      invariant images + CountInline(content.items[i..]) == CountInline(content.items)
    {
      var part, n := SlimHistoricalPart(content.items[i]);
      parts := parts + [part];
      images := images + n;
    }
    assert content.items[..|content.items|] == content.items;
    return Arr(parts), images;
  }

  method SlimHistoricalItem(item: Json) returns (slimmed: Json, outputs: nat, images: nat)
    ensures slimmed == SlimItem(item) && outputs == Outputs(item) && images == Images(item)
  {
    if !item.Obj? {
      return item, 0, 0;
    }
    var fields := item.fields;
    outputs, images := 0, 0;
    if HasType(fields, "function_call_output") {
      var output := Get(fields, "output");
      if output.Str? && ShouldSlimOutput(output.s) {
        fields := fields["output" := Str(ToolNotice(Utf8Len(output.s)))];
        outputs := 1;
      }
    }
    var content, found := SlimHistoricalContent(Get(fields, "content"));
    if found > 0 {
      fields := fields["content" := content];
      images := found;
    }
    if HasType(fields, "input_image") && InlineReference(Get(fields, "image_url")) {
      return NOTICE_ITEM, outputs, images + 1;
    }
    return Obj(fields), outputs, images;
  }

  function SlimItems(items: seq<Json>): (r: seq<Json>)
    ensures |r| == |items| && forall i :: 0 <= i < |r| ==> r[i] == SlimItem(items[i])
  {
    seq(|items|, i requires 0 <= i < |items| => SlimItem(items[i]))
  }

  /** The payload that comes back, and the summary of what was found. */
  function Slim(payload: Fields): (Fields, Option<Summary>) {
    var input := Get(payload, "input");
    if !input.Arr? then (payload, None)
    else
      var start := RecentStart(input.items);
      var found := Total(input.items[..start]);
      if found == Summary(0, 0) then (payload, None)
      else (payload["input" := Arr(SlimItems(input.items[..start]) + input.items[start..])], Some(found))
  }

  /** `_slim_response_create_payload_for_upstream` */
  method SlimPayload(payload: Fields) returns (slimmed: Fields, summary: Option<Summary>)
    ensures (slimmed, summary) == Slim(payload)
  {
    var input := Get(payload, "input");
    if !input.Arr? || input.items == [] {
      return payload, None;
    }
    var items := input.items;
    var start := RecentSuffixStart(items);
    var outputs, images := 0, 0;
    var historical: seq<Json> := [];
    for i := 0 to start
      invariant historical == SlimItems(items[..i])
      invariant Summary(outputs, images) == Total(items[..i])
    {
      assert items[..i + 1][..i] == items[..i];
      var item, o, n := SlimHistoricalItem(items[i]);
      outputs, images := outputs + o, images + n;
      historical := historical + [item];
    }
    if outputs == 0 && images == 0 {
      return payload, None;
    }
    return payload["input" := Arr(historical + items[start..])], Some(Summary(outputs, images));
  }

  // ----- What slimming does to a history -----

  /** Slimming an item leaves nothing to slim in it. */
  lemma {:induction false} SlimItemClean(item: Json)
    requires LargeOutput(item) ==> Storable(item.fields["output"].s)
    ensures Clean(SlimItem(item))
  {
    if item.Obj? && !InlineItem(item) {
      if LargeOutput(item) { NoticeStays(Utf8Len(item.fields["output"].s)); }
      SlimContentClean(Get(item.fields, "content"));
    } else if item.Obj? {
      assert CountInline([NOTICE_PART]) == 0;
    }
  }

  lemma {:induction false} SlimContentClean(content: Json)
    ensures InlineInContent(SlimContent(content)) == 0
  {
    if content.Arr? { SlimPartsClean(content.items); }
  }

  lemma {:induction false} SlimPartsClean(parts: seq<Json>)
    ensures CountInline(SlimParts(parts)) == 0
  {
    if parts != [] {
      SlimPartsClean(parts[1..]);
      assert SlimParts(parts)[1..] == SlimParts(parts[1..]);
    }
  }

  /** Everything else in an item stays: a clean item is untouched, and in any other one
      that is kept only the large output and the inline parts of the content change. */
  lemma {:induction false} SlimItemKeeps(item: Json)
    ensures Clean(item) ==> SlimItem(item) == item
    ensures item.Obj? && !InlineItem(item) ==>
              && SlimItem(item).Obj? && SlimItem(item).fields.Keys == item.fields.Keys
              && (forall k :: k in item.fields && k != "output" && k != "content" ==> SlimItem(item).fields[k] == item.fields[k])
              && (!LargeOutput(item) ==> Get(SlimItem(item).fields, "output") == Get(item.fields, "output"))
              && Get(SlimItem(item).fields, "content") == SlimContent(Get(item.fields, "content"))
    ensures !InlineItem(item) ==> (IsUser(SlimItem(item)) <==> IsUser(item))
  {
    if item.Obj? && InlineInContent(Get(item.fields, "content")) == 0 {
      NothingInline(Get(item.fields, "content"));
    }
  }

  lemma {:induction false} NothingInline(content: Json)
    requires InlineInContent(content) == 0
    ensures SlimContent(content) == content
  {
    if content.Arr? { NoInlineParts(content.items); }
  }

  lemma {:induction false} NoInlineParts(parts: seq<Json>)
    requires CountInline(parts) == 0
    ensures SlimParts(parts) == parts
  {
    if parts != [] {
      NoInlineParts(parts[1..]);
      assert SlimParts(parts) == [SlimPart(parts[0])] + SlimParts(parts[1..]);
    }
  }

  lemma {:induction false} CleanTotal(items: seq<Json>)
    ensures Total(items) == Summary(0, 0) <==> forall i :: 0 <= i < |items| ==> Clean(items[i])
  {
    if items != [] {
      CleanTotal(items[..|items| - 1]);
    }
  }

  predicate StorableOutputs(items: seq<Json>) {
    forall i :: 0 <= i < |items| && LargeOutput(items[i]) ==> Storable(items[i].fields["output"].s)
  }

  /** Slimming a payload keeps every other key and the number of items, leaves everything
      from the last user item on as it was, and leaves the whole history before it clean. */
  lemma {:induction false} SlimPreserves(payload: Fields)
    requires Get(payload, "input").Arr? && StorableOutputs(payload["input"].items)
    ensures var (slimmed, summary) := Slim(payload);
            var items := payload["input"].items;
            var start := RecentStart(items);
            && slimmed.Keys == payload.Keys
            && (forall k :: k in payload && k != "input" ==> slimmed[k] == payload[k])
            && slimmed["input"].Arr?
            && var out := slimmed["input"].items;
               && |out| == |items|
               && out[start..] == items[start..]
               && RecentStart(out) == start
               && (forall i :: 0 <= i < start ==> out[i] == SlimItem(items[i]) && Clean(out[i]))
  {
    var items := payload["input"].items;
    var start := RecentStart(items);
    CleanTotal(items[..start]);
    forall i | 0 <= i < start ensures Clean(SlimItem(items[i])) && (Clean(items[i]) ==> SlimItem(items[i]) == items[i]) {
      SlimItemClean(items[i]);
      SlimItemKeeps(items[i]);
    }
    var out := Slim(payload).0["input"].items;
    assert forall i :: 0 <= i < start ==> items[..start][i] == items[i];
    assert out[start..] == items[start..];
    SameStart(items, out);
  }

  /** Only what is from the old start on decides the start: notices that carry role user
      further back do not move it. */
  lemma {:induction false} SameStart(items: seq<Json>, out: seq<Json>)
    requires |out| == |items| && out[RecentStart(items)..] == items[RecentStart(items)..]
    ensures RecentStart(out) == RecentStart(items)
  {
    var start := RecentStart(items);
    assert forall i :: start <= i < |items| ==> out[i] == out[start..][i - start] == items[i];
  }

  /** Slimming twice is slimming once: the second pass finds nothing. */
  lemma {:induction false} SlimIdempotent(payload: Fields)
    requires Get(payload, "input").Arr? ==> StorableOutputs(payload["input"].items)
    ensures Slim(Slim(payload).0) == (Slim(payload).0, None)
  {
    if Get(payload, "input").Arr? {
      SlimPreserves(payload);
      var out := Slim(payload).0["input"].items;
      CleanTotal(out[..RecentStart(out)]);
    }
  }

  // ----- The same with the literals spelt out -----

  /** A string that starts with the image prefix. */
  predicate DataImage(v: Json) { v.Str? && |v.s| >= 11 && v.s[..11] == "data:image/" }

  predicate Typed(fields: Fields, t: string) { "type" in fields && fields["type"] == Str(t) }

  /** The parts that are replaced: an input_image whose image_url is an inline image, or an
      image_url part whose image_url, or its url, is one. */
  lemma {:induction false} InlinePartMeans(part: Json)
    ensures InlinePart(part) <==>
            && part.Obj? && "image_url" in part.fields
            && var url := part.fields["image_url"];
               || (Typed(part.fields, "input_image") && DataImage(url))
               || (Typed(part.fields, "image_url")
                   && (DataImage(url) || (url.Obj? && "url" in url.fields && DataImage(url.fields["url"]))))
    ensures InlinePart(part) ==>
              SlimPart(part) == Obj(map["type" := Str("input_text"),
                                        "text" := Str("[codex-lb omitted historical inline image to fit upstream websocket budget]")])
    ensures !InlinePart(part) ==> SlimPart(part) == part
  {
  }

  /** Content is slimmed part by part; content that is neither a part nor a list stays. */
  lemma {:induction false} ContentMeans(content: Json)
    ensures content.Arr? ==>
              && SlimContent(content).Arr? && |SlimContent(content).items| == |content.items|
              && forall i :: 0 <= i < |content.items| ==>
                   SlimContent(content).items[i] == if InlinePart(content.items[i]) then NOTICE_PART else content.items[i]
    ensures content.Obj? ==> SlimContent(content) == if InlinePart(content) then NOTICE_PART else content
    ensures !content.Arr? && !content.Obj? ==> SlimContent(content) == content
  {
  }

  lemma {:induction false} InlineItemMeans(item: Json)
    ensures InlineItem(item) <==>
            item.Obj? && Typed(item.fields, "input_image") && "image_url" in item.fields && DataImage(item.fields["image_url"])
    ensures InlineItem(item) ==>
              && SlimItem(item).Obj? && SlimItem(item).fields.Keys == {"role", "content"}
              && SlimItem(item).fields["role"] == Str("user")
              && SlimItem(item).fields["content"] == Arr([NOTICE_PART])
  {
  }

  lemma {:induction false} ContainsMeans(s: string, sub: string)
    ensures Contains(s, sub) <==> exists i :: 0 <= i && i + |sub| <= |s| && s[i..][..|sub|] == sub
  {
    if s != [] {
      ContainsMeans(s[1..], sub);
      assert forall i :: 0 < i <= |s| ==> s[i..] == s[1..][i - 1..];
    }
    if StartsWith(s, sub) { assert s[0..] == s; }
    if i :| 0 <= i && i + |sub| <= |s| && s[i..][..|sub|] == sub {
      if i == 0 {
        assert s[0..] == s;
      } else {
        assert s[1..][i - 1..][..|sub|] == sub;
      }
    }
  }

  lemma {:induction false} Utf8Means(a: string, c: char)
    ensures Utf8Len([]) == 0
    ensures Utf8Len(a + [c]) == Utf8Len(a) +
              if c as int < 0x80 then 1 else if c as int < 0x800 then 2 else if c as int < 0x10000 then 3 else 4
  {
    if a == [] {
      assert [] + [c] == [c] && [c][1..] == [];
    } else {
      assert (a + [c])[0] == a[0] && (a + [c])[1..] == a[1..] + [c];
      Utf8Means(a[1..], c);
    }
  }

  /** The outputs that are replaced: of a function call, and with an inline image anywhere in
      them or more than 32768 bytes. */
  lemma {:induction false} LargeOutputMeans(item: Json)
    ensures LargeOutput(item) <==>
            && item.Obj? && Typed(item.fields, "function_call_output") && "output" in item.fields && item.fields["output"].Str?
            && var s := item.fields["output"].s;
               (exists i :: 0 <= i && i + 11 <= |s| && s[i..][..11] == "data:image/") || Utf8Len(s) > 32768
    ensures LargeOutput(item) ==>
              && SlimItem(item).Obj? && "output" in SlimItem(item).fields
              && SlimItem(item).fields["output"] ==
                 Str("[codex-lb omitted historical tool output (" + Decimal(Utf8Len(item.fields["output"].s))
                     + " bytes) to fit upstream websocket budget]")
  {
    if item.Obj? && Get(item.fields, "output").Str? { ContainsMeans(Get(item.fields, "output").s, IMAGE_PREFIX); }
  }

  function DigitValue(c: char): int { c as int - '0' as int }

  function Value(digits: string): int {
    if digits == [] then 0 else 10 * Value(digits[..|digits| - 1]) + DigitValue(digits[|digits| - 1])
  }

  /** The size in a notice reads back as the size, and has no leading zero. */
  lemma {:induction false} DecimalReadsBack(n: nat)
    ensures Value(Decimal(n)) == n && (n > 0 ==> Decimal(n)[0] != '0')
  {
    if n >= 10 {
      DecimalReadsBack(n / 10);
      var d := Decimal(n);
      assert d[..|d| - 1] == Decimal(n / 10) && d[|d| - 1] == Digit(n % 10);
    } else {
      assert Decimal(n)[..0] == [];
    }
  }

  /** Where the recent suffix starts. */
  lemma {:induction false} RecentStartMeans(items: seq<Json>)
    ensures var start := RecentStart(items);
            var user := (item: Json) => item.Obj? && "role" in item.fields && item.fields["role"] == Str("user");
            || (start < |items| && user(items[start]) && forall i :: start < i < |items| ==> !user(items[i]))
            || (start == 0 && forall i :: 0 <= i < |items| ==> !user(items[i]))
  {
  }

  ghost function InlineAt(parts: seq<Json>): set<nat> { set i: nat | i < |parts| && InlinePart(parts[i]) }

  lemma {:induction false} CountInlineSnoc(parts: seq<Json>, part: Json)
    ensures CountInline(parts + [part]) == CountInline(parts) + if InlinePart(part) then 1 else 0
  {
    if parts == [] {
      assert [] + [part] == [part] && [part][1..] == [];
    } else {
      assert (parts + [part])[0] == parts[0] && (parts + [part])[1..] == parts[1..] + [part];
      CountInlineSnoc(parts[1..], part);
    }
  }

  lemma {:induction false} CountInlineMeans(parts: seq<Json>)
    ensures CountInline(parts) == |InlineAt(parts)|
  {
    if parts != [] {
      var n := |parts| - 1;
      CountInlineMeans(parts[..n]);
      assert parts == parts[..n] + [parts[n]];
      CountInlineSnoc(parts[..n], parts[n]);
      InlineOneMore(parts);
    }
  }

  lemma {:induction false} InlineOneMore(parts: seq<Json>)
    requires parts != []
    ensures var n := |parts| - 1;
            n !in InlineAt(parts[..n]) && InlineAt(parts) == InlineAt(parts[..n]) + if InlinePart(parts[n]) then {n} else {}
  {
    var n := |parts| - 1;
    assert forall i :: 0 <= i < n ==> parts[..n][i] == parts[i];
  }

  /** The summary adds up the items before the recent suffix, and there is none exactly if
      there is nothing to add up; then the payload is the one given. */
  lemma {:induction false} SummaryMeans(payload: Fields)
    requires Get(payload, "input").Arr?
    ensures var items := payload["input"].items;
            var history := items[..RecentStart(items)];
            && (Slim(payload).1.None? <==> forall i :: 0 <= i < |history| ==> Clean(history[i]))
            && (Slim(payload).1.Some? ==> Slim(payload).1.value == Total(history))
            && (Slim(payload).1.None? ==> Slim(payload).0 == payload)
  {
    CleanTotal(payload["input"].items[..RecentStart(payload["input"].items)]);
  }

  lemma {:induction false} TotalAdds(items: seq<Json>, item: Json)
    ensures Total([]) == Summary(0, 0)
    ensures Total(items + [item]).outputs == Total(items).outputs + if LargeOutput(item) then 1 else 0
    ensures Total(items + [item]).images == Total(items).images + Images(item)
    ensures Images(item) == if !item.Obj? then 0
                            else (if InlineItem(item) then 1 else 0)
                                 + (match Get(item.fields, "content")
                                    case Arr(parts) => |InlineAt(parts)|
                                    case Obj(_) => if InlinePart(Get(item.fields, "content")) then 1 else 0
                                    case _ => 0)
  {
    assert (items + [item])[..|items|] == items;
    if item.Obj? && Get(item.fields, "content").Arr? { CountInlineMeans(Get(item.fields, "content").items); }
  }
}
