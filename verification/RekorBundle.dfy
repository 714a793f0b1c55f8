/** `hashedrecordbundle.go`: reading one Rekor record out of its several JSON spellings. */
module RekorBundle {
  import opened Wrappers
  import opened Hex
  import opened Decimal
  import opened Float64

  // ---- JSON values and what `encoding/json` makes of them ----

  datatype Json =
    | Null
    | Bool(b: bool)
    | Number(x: real)
    | Str(s: string)
    | Array(items: seq<Json>)
    | Object(fields: map<string, Json>)

  /** A value decoded into an `any`. */
  datatype Any = Nil | Float(f: real) | JsonNumber(text: string) | Text(s: string) | Int(n: int) | Other

  /** A decoded log entry; `NewTlogEntry` may still reject it. */
  datatype Entry = Entry(logIndex: int, keyId: Bytes, integratedTime: int, body: Bytes, signature: Bytes)

  /** The library functions underneath, each deterministic. */
  datatype Codec = Codec(
    parse: string -> Option<Json>,       // well-formedness check and parse
    byteSlice: Json -> Option<Bytes>,    // decoding into a []byte
    float: real -> Option<real>,         // decoding a number into a float64; None: out of range
    outOfRange: real -> int,             // int64 of a float64 that does not fit
    lower: char -> char,
    acceptsEntry: Entry -> bool)

  ghost predicate LawfulCodec(c: Codec) {
    && c.byteSlice(Null) == Some([])
    && (forall x :: c.float(x).Some? ==> RoundsTo(x, c.float(x).value))
    && (forall x :: Abs(x) <= TWO_53 as real ==> c.float(x).Some?)
    && LawfulLower(c.lower)
  }

  function AnyToInt64(c: Codec, v: Any): Option<int> {
    match v
    case Nil => None
    case Float(f) => Some(ToInt64(f, c.outOfRange))
    case JsonNumber(text) => ParseInt(text)
    case Text(s) => if s == "" then None else ParseInt(s)
    case Int(n) => Some(n)
    case Other => None
  }

  predicate StructLike(j: Json) {
    j.Object? || j.Null?
  }

  function Field(j: Json, key: string): Json {
    if j.Object? && key in j.fields then j.fields[key] else Null
  }

  function DecodeAny(c: Codec, j: Json): Option<Any> {
    match j
    case Null => Some(Nil)
    case Number(x) => (match c.float(x) case Some(f) => Some(Float(f)) case None => None)
    case Str(s) => Some(Text(s))
    case _ => Some(Other)
  }

  function DecodeString(j: Json): Option<string> {
    match j
    case Null => Some("")
    case Str(s) => Some(s)
    case _ => None
  }

  // ---- The two shapes ----

  datatype NewEntry = NewEntry(logIndex: Any, keyId: string, integratedTime: Any, signature: Bytes, body: Bytes)

  datatype OldShape = OldShape(
    signature: Bytes, body: Bytes,
    logID: Any, integratedTime: Any, logIndex: Any,
    nestedLogID: Any, nestedTime: Any, nestedIndex: Any)

  function DecodeEntry(c: Codec, j: Json): Option<NewEntry> {
    var promise := Field(j, "inclusionPromise");
    if !StructLike(j) || !StructLike(Field(j, "logId")) || !StructLike(promise) then None
    else match (DecodeAny(c, Field(j, "logIndex")), DecodeString(Field(Field(j, "logId"), "keyId")),
                DecodeAny(c, Field(j, "integratedTime")), c.byteSlice(Field(promise, "signedEntryTimestamp")),
                c.byteSlice(Field(j, "canonicalizedBody")))
      case (Some(index), Some(keyId), Some(time), Some(signature), Some(body)) =>
        Some(NewEntry(index, keyId, time, signature, body))
      case _ => None
  }

  function DecodeEntries(c: Codec, items: seq<Json>): Option<seq<NewEntry>> {
    if items == [] then Some([])
    else match (DecodeEntry(c, items[0]), DecodeEntries(c, items[1..]))
      case (Some(e), Some(rest)) => Some([e] + rest)
      case _ => None
  }

  function DecodeNew(c: Codec, j: Json): Option<seq<NewEntry>> {
    var content := Field(j, "content");
    var material := Field(content, "verificationMaterial");
    if !StructLike(j) || !StructLike(content) || !StructLike(material) then None
    else match Field(material, "tlogEntries")
      case Null => Some([])
      case Array(items) => DecodeEntries(c, items)
      case _ => None
  }

  function DecodeOld(c: Codec, j: Json): Option<OldShape> {
    var payload := Field(j, "Payload");
    if !StructLike(j) || !StructLike(payload) then None
    else match (c.byteSlice(Field(j, "SignedEntryTimestamp")), c.byteSlice(Field(payload, "body")),
                DecodeAny(c, Field(j, "logID")), DecodeAny(c, Field(j, "integratedTime")),
                DecodeAny(c, Field(j, "logIndex")))
      case (Some(signature), Some(body), Some(logID), Some(time), Some(index)) => (
        match (DecodeAny(c, Field(payload, "logID")), DecodeAny(c, Field(payload, "integratedTime")),
               DecodeAny(c, Field(payload, "logIndex")))
        case (Some(logID'), Some(time'), Some(index')) =>
          Some(OldShape(signature, body, logID, time, index, logID', time', index'))
        case _ => None)
      case _ => None
  }

  // ---- parseRekorBundle ----

  datatype Bundle = Bundle(body: Bytes, signature: Bytes, logID: string, integratedTime: int, logIndex: int)

  datatype ParseError = NotJson | BadBundle | BadLogID | BadEntry

  function TextOrEmpty(v: Any): string {
    match v case Text(s) => s case _ => ""
  }

  function IntOrZero(c: Codec, v: Any): int {
    match AnyToInt64(c, v) case Some(n) => n case None => 0
  }

  /** The first of two strings that is not empty. */
  function FirstText(top: Any, nested: Any): string {
    if TextOrEmpty(top) != "" then TextOrEmpty(top) else TextOrEmpty(nested)
  }

  /** The first of two integers that is not zero. */
  function FirstInt(c: Codec, top: Any, nested: Any): int {
    if IntOrZero(c, top) != 0 then IntOrZero(c, top) else IntOrZero(c, nested)
  }

  function FromNew(c: Codec, e: NewEntry): Bundle {
    Bundle(e.body, e.signature, ToLower(e.keyId, c.lower), IntOrZero(c, e.integratedTime), IntOrZero(c, e.logIndex))
  }

  function FromOld(c: Codec, o: OldShape): Bundle {
    Bundle(o.body, o.signature, FirstText(o.logID, o.nestedLogID),
           FirstInt(c, o.integratedTime, o.nestedTime), FirstInt(c, o.logIndex, o.nestedIndex))
  }

  /** The new shape applies only if the whole value decodes and its first entry is signed. */
  predicate IsNew(entries: Option<seq<NewEntry>>) {
    entries.Some? && entries.value != [] && entries.value[0].body != [] && entries.value[0].signature != []
  }

  /** What a JSON value means: its new-shape reading if it has one, else its old-shape reading. */
  function Reading(c: Codec, entries: Option<seq<NewEntry>>, shape: Option<OldShape>): Result<Bundle, ParseError> {
    if IsNew(entries) then Success(FromNew(c, entries.value[0]))
    else match shape case Some(o) => Success(FromOld(c, o)) case None => Failure(BadBundle)
  }

  function Meaning(c: Codec, text: string): Result<Bundle, ParseError> {
    match c.parse(text)
    case None => Failure(NotJson)
    case Some(j) => Reading(c, DecodeNew(c, j), DecodeOld(c, j))
  }

  method FillFromNew(c: Codec, e: NewEntry) returns (b: Bundle)
    ensures b == FromNew(c, e)
  {
    b := Bundle(e.body, e.signature, ToLower(e.keyId, c.lower), 0, 0);
    var time := AnyToInt64(c, e.integratedTime);
    if time.Some? {
      b := b.(integratedTime := time.value);
    }
    var index := AnyToInt64(c, e.logIndex);
    if index.Some? {
      b := b.(logIndex := index.value);
    }
  }

  method FillFromOld(c: Codec, o: OldShape) returns (b: Bundle)
    ensures b == FromOld(c, o)
  {
    b := Bundle(o.body, o.signature, "", 0, 0);
    if o.logID.Text? {
      b := b.(logID := o.logID.s);
    }
    if b.logID == "" {
      if o.nestedLogID.Text? {
        b := b.(logID := o.nestedLogID.s);
      }
    }
    var v := AnyToInt64(c, o.integratedTime);
    if v.Some? {
      b := b.(integratedTime := v.value);
    }
    if b.integratedTime == 0 {
      v := AnyToInt64(c, o.nestedTime);
      if v.Some? {
        b := b.(integratedTime := v.value);
      }
    }
    v := AnyToInt64(c, o.logIndex);
    if v.Some? {
      b := b.(logIndex := v.value);
    }
    if b.logIndex == 0 {
      v := AnyToInt64(c, o.nestedIndex);
      if v.Some? {
        b := b.(logIndex := v.value);
      }
    }
  }

  method ParseRekorBundle(c: Codec, text: string) returns (r: Result<Bundle, ParseError>)
    ensures r == Meaning(c, text)
  {
    var parsed := c.parse(text);
    if parsed.None? {
      return Failure(NotJson);
    }
    var entries, shape := DecodeNew(c, parsed.value), DecodeOld(c, parsed.value);
    if entries.Some? && |entries.value| > 0 {
      var e := entries.value[0];
      if |e.body| != 0 && |e.signature| != 0 {
        var b := FillFromNew(c, e);
        return Success(b);
      }
    }
    if shape.None? {
      return Failure(BadBundle);
    }
    var b := FillFromOld(c, shape.value);
    return Success(b);
  }

  // ---- Every spelling of a record means that record ----

  /** `n` as a decimal string, or as a JSON number in the range where those are exact. */
  predicate SpellsInt(j: Json, n: int) {
    || (j == Str(FormatInt(n)) && IsInt64(n))
    || (j == Number(n as real) && -TWO_53 <= n <= TWO_53)
  }

  predicate SpellsBytes(c: Codec, j: Json, bytes: Bytes) {
    bytes != [] && c.byteSlice(j) == Some(bytes)
  }

  /** The new shape: any case of the log ID, and any further entries that decode. */
  predicate SpellsNew(c: Codec, j: Json, b: Bundle) {
    var entries := Field(Field(Field(j, "content"), "verificationMaterial"), "tlogEntries");
    && entries.Array? && entries.items != []
    && DecodeEntries(c, entries.items[1..]).Some?
    && SpellsEntry(c, entries.items[0], b)
  }

  predicate SpellsEntry(c: Codec, e: Json, b: Bundle) {
    var keyId := Field(Field(e, "logId"), "keyId");
    && keyId.Str? && ToLower(keyId.s, c.lower) == b.logID
    && SpellsInt(Field(e, "integratedTime"), b.integratedTime)
    && SpellsInt(Field(e, "logIndex"), b.logIndex)
    && SpellsBytes(c, Field(Field(e, "inclusionPromise"), "signedEntryTimestamp"), b.signature)
    && SpellsBytes(c, Field(e, "canonicalizedBody"), b.body)
  }

  /** Two places for one integer: at least one is filled, and what is filled agrees. */
  predicate SpellsTwice(top: Json, nested: Json, n: int) {
    && (top.Null? || SpellsInt(top, n))
    && (nested.Null? || SpellsInt(nested, n))
    && !(top.Null? && nested.Null?)
  }

  predicate SpellsTextTwice(top: Json, nested: Json, s: string) {
    && (top.Null? || top == Str(s))
    && (nested.Null? || nested == Str(s))
    && !(top.Null? && nested.Null?)
  }

  /** The old shape: each field at the top level, under "Payload", or in both places agreeing. */
  predicate SpellsOld(c: Codec, j: Json, b: Bundle) {
    var payload := Field(j, "Payload");
    && Field(j, "content").Null?
    && payload.Object?
    && SpellsBytes(c, Field(j, "SignedEntryTimestamp"), b.signature)
    && SpellsBytes(c, Field(payload, "body"), b.body)
    && SpellsTextTwice(Field(j, "logID"), Field(payload, "logID"), b.logID)
    && SpellsTwice(Field(j, "integratedTime"), Field(payload, "integratedTime"), b.integratedTime)
    && SpellsTwice(Field(j, "logIndex"), Field(payload, "logIndex"), b.logIndex)
  }

  lemma SpelledInt(c: Codec, j: Json, n: int)
    requires LawfulCodec(c) && SpellsInt(j, n)
    ensures DecodeAny(c, j).Some? && AnyToInt64(c, DecodeAny(c, j).value) == Some(n)
  {
    if j.Str? {
      ParseFormat(n);
    } else {
      SmallIntegerThroughFloat(n, c.float(n as real).value, c.outOfRange);
    }
  }

  lemma SpelledTwice(c: Codec, top: Json, nested: Json, n: int)
    requires LawfulCodec(c) && SpellsTwice(top, nested, n)
    ensures DecodeAny(c, top).Some? && DecodeAny(c, nested).Some?
    ensures FirstInt(c, DecodeAny(c, top).value, DecodeAny(c, nested).value) == n
  {
    if !top.Null? {
      SpelledInt(c, top, n);
    }
    if !nested.Null? {
      SpelledInt(c, nested, n);
    }
  }

  lemma SpelledEntry(c: Codec, e: Json, b: Bundle)
    requires LawfulCodec(c) && SpellsEntry(c, e, b)
    ensures DecodeEntry(c, e).Some? && FromNew(c, DecodeEntry(c, e).value) == b
  {
    SpelledInt(c, Field(e, "integratedTime"), b.integratedTime);
    SpelledInt(c, Field(e, "logIndex"), b.logIndex);
  }

  lemma SpelledNew(c: Codec, j: Json, b: Bundle)
    requires LawfulCodec(c) && SpellsNew(c, j, b)
    ensures IsNew(DecodeNew(c, j)) && FromNew(c, DecodeNew(c, j).value[0]) == b
  {
    var items := Field(Field(Field(j, "content"), "verificationMaterial"), "tlogEntries").items;
    SpelledEntry(c, items[0], b);
    assert DecodeNew(c, j) == DecodeEntries(c, items);
  }

  lemma SpelledOld(c: Codec, j: Json, b: Bundle)
    requires LawfulCodec(c) && SpellsOld(c, j, b)
    ensures !IsNew(DecodeNew(c, j))
    ensures DecodeOld(c, j).Some? && FromOld(c, DecodeOld(c, j).value) == b
  {
    var payload := Field(j, "Payload");
    SpelledTwice(c, Field(j, "integratedTime"), Field(payload, "integratedTime"), b.integratedTime);
    SpelledTwice(c, Field(j, "logIndex"), Field(payload, "logIndex"), b.logIndex);
  }

  /** All spellings of one signed record parse to that record. */
  lemma SpellingsAgree(c: Codec, text: string, b: Bundle)
    requires LawfulCodec(c) && c.parse(text).Some?
    requires SpellsNew(c, c.parse(text).value, b) || SpellsOld(c, c.parse(text).value, b)
    ensures Meaning(c, text) == Success(b)
  {
    var j := c.parse(text).value;
    if SpellsNew(c, j, b) {
      SpelledNew(c, j, b);
    } else {
      SpelledOld(c, j, b);
    }
  }

  /** A top-level field that is empty, zero or of no usable type behaves as if it were absent. */
  lemma UselessFieldIsAbsent(c: Codec, text: string, text': string, fields: map<string, Json>, key: string)
    requires key in fields && key in {"logID", "integratedTime", "logIndex"}
    requires c.parse(text) == Some(Object(fields)) && c.parse(text') == Some(Object(fields - {key}))
    requires DecodeAny(c, fields[key]).Some?
    requires var v := DecodeAny(c, fields[key]).value;
             if key == "logID" then TextOrEmpty(v) == "" else AnyToInt64(c, v) in {None, Some(0)}
    ensures Meaning(c, text) == Meaning(c, text')
  {
    var j, j' := Object(fields), Object(fields - {key});
    assert forall k :: k != key ==> Field(j, k) == Field(j', k);
    assert Field(j', key) == Null;
    assert DecodeNew(c, j) == DecodeNew(c, j');
    var shape, shape' := DecodeOld(c, j), DecodeOld(c, j');
    assert shape.Some? <==> shape'.Some?;
    assert shape.Some? ==> FromOld(c, shape.value) == FromOld(c, shape'.value);
  }

  /** An object that is not of the new shape and whose old shape decodes. */
  predicate IsOldObject(c: Codec, j: Json) {
    j.Object? && !IsNew(DecodeNew(c, j)) && DecodeOld(c, j).Some?
  }

  /**
   * In the old shape a top-level integer other than zero, and a top-level log ID that is not empty,
   * win over whatever is nested; body and signature have one place each.
   */
  lemma TopLevelWins(c: Codec, text: string, j: Json, n: int)
    requires LawfulCodec(c) && c.parse(text) == Some(j) && IsOldObject(c, j)
    ensures Meaning(c, text).Success?
    ensures var b := Meaning(c, text).value;
            && (SpellsInt(Field(j, "integratedTime"), n) && n != 0 ==> b.integratedTime == n)
            && (SpellsInt(Field(j, "logIndex"), n) && n != 0 ==> b.logIndex == n)
            && (Field(j, "logID").Str? && Field(j, "logID").s != "" ==> b.logID == Field(j, "logID").s)
            && c.byteSlice(Field(j, "SignedEntryTimestamp")) == Some(b.signature)
            && c.byteSlice(Field(Field(j, "Payload"), "body")) == Some(b.body)
  {
    if SpellsInt(Field(j, "integratedTime"), n) {
      SpelledInt(c, Field(j, "integratedTime"), n);
    }
    if SpellsInt(Field(j, "logIndex"), n) {
      SpelledInt(c, Field(j, "logIndex"), n);
    }
  }

  // ---- TlogEntries ----

  /** `TlogEntries` on the text of the bundle annotation, which is empty when there is none. */
  function TlogEntries(c: Codec, text: string): Result<seq<Entry>, ParseError> {
    if text == "" then Success([])
    else
      var b :- Meaning(c, text);
      match Decode(b.logID)
      case None => Failure(BadLogID)
      case Some(keyId) =>
        var e := Entry(b.logIndex, keyId, b.integratedTime, b.body, b.signature);
        if c.acceptsEntry(e) then Success([e]) else Failure(BadEntry)
  }

  /** A record's text yields exactly one entry, with the record's own fields, if the library accepts it. */
  lemma EntryIsTheRecord(c: Codec, text: string, b: Bundle, key: Bytes)
    requires LawfulCodec(c) && text != "" && c.parse(text).Some?
    requires SpellsNew(c, c.parse(text).value, b) || SpellsOld(c, c.parse(text).value, b)
    requires Decode(b.logID) == Some(key)
    ensures TlogEntries(c, "") == Success([])
    ensures var r := TlogEntries(c, text);
            && (r.Success? ==>
                  && |r.value| == 1
                  && r.value[0].logIndex == b.logIndex && r.value[0].integratedTime == b.integratedTime
                  && r.value[0].keyId == key && r.value[0].body == b.body && r.value[0].signature == b.signature)
            && (r.Success? <==> c.acceptsEntry(Entry(b.logIndex, key, b.integratedTime, b.body, b.signature)))
  {
    SpellingsAgree(c, text, b);
  }

  /** Lower-casing a new-shape log ID leaves the decoded log key what it was as written. */
  lemma LogKeyAsWritten(c: Codec, text: string, j: Json)
    requires LawfulCodec(c) && text != "" && c.parse(text) == Some(j) && IsNew(DecodeNew(c, j))
    ensures var written := Decode(DecodeNew(c, j).value[0].keyId);
            match TlogEntries(c, text)
            case Success(entries) => |entries| == 1 && written == Some(entries[0].keyId)
            case Failure(e) => e == BadEntry || (e == BadLogID && written.None?)
  {
    DecodeIgnoresCase(DecodeNew(c, j).value[0].keyId, c.lower);
  }
}
