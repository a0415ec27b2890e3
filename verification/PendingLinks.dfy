/** Links accepted by Redis, and the JSON records in which they wait for PostgreSQL
    (src/domain/link.ts, src/store/write-behind-link-store.ts). Instants are epoch milliseconds. */
module PendingLinks {
  import opened IsoTime
  import opened Wrappers
  import Base62

  datatype PendingLink = PendingLink(code: string, targetUrl: string, createdAt: int, expiresAt: Option<int>)

  const MAX_TARGET_LENGTH: nat := 2048

  /** ^[A-Za-z0-9_-]{4,32}$ */
  predicate IsValidCode(code: string) {
    4 <= |code| <= 32 && forall c :: c in code ==> IsCodeChar(c)
  }

  predicate IsCodeChar(c: char) {
    'A' <= c <= 'Z' || 'a' <= c <= 'z' || '0' <= c <= '9' || c == '_' || c == '-'
  }

  /** A code is made of letters, digits, _ and -. */
  lemma CodeCharacters(c: char)
    ensures IsCodeChar(c) <==> c in Base62.ALPHABET || c in "_-"
  {
    Base62.InAlphabetExactly(c);
    assert c in "_-" <==> c == '_' || c == '-';
  }

  /** What the sync worker asks of a record before it inserts it. */
  predicate Readable(link: PendingLink) {
    IsValidCode(link.code) && 1 <= |link.targetUrl| <= MAX_TARGET_LENGTH
  }

  /** A record is readable exactly with a code of 4 to 32 of these characters and a target of 1 to
      2,048. */
  lemma ReadableExactly(link: PendingLink)
    ensures Readable(link)
       <==> && 4 <= |link.code| <= 32 && (forall c :: c in link.code ==> c in Base62.ALPHABET || c in "_-")
            && 1 <= |link.targetUrl| <= 2048
  {
    forall c | c in link.code
      ensures IsCodeChar(c) <==> c in Base62.ALPHABET || c in "_-"
    {
      CodeCharacters(c);
    }
  }

  /** A parsed JSON value; JOther stands for numbers, booleans, arrays and missing fields. */
  datatype Json = JNull | JText(text: string) | JOther | JObject(fields: map<string, Json>)

  function Field(o: Json, name: string): Json
    requires o.JObject?
  {
    if name in o.fields then o.fields[name] else JOther
  }

  predicate Printable(ms: int) {
    FIRST_MILLIS <= ms < END_MILLIS
  }

  predicate PrintableDates(link: PendingLink) {
    Printable(link.createdAt) && (link.expiresAt.Some? ==> Printable(link.expiresAt.value))
  }

  function Record(code: Json, target: Json, created: Json, expires: Json): Json {
    JObject(map["code" := code, "targetUrl" := target, "createdAt" := created, "expiresAt" := expires])
  }

  function DateText(ms: Option<int>): Json
    requires ms.Some? ==> Printable(ms.value)
  {
    if ms.Some? then JText(ToIso(ms.value)) else JNull
  }

  function Serialize(link: PendingLink): Json
    requires PrintableDates(link)
  {
    Record(JText(link.code), JText(link.targetUrl), DateText(Some(link.createdAt)), DateText(link.expiresAt))
  }

  /** `dateOf` is the Date constructor: None is an invalid date. `value` is None when the text
      was not JSON. */
  function Parse(dateOf: string -> Option<int>, value: Option<Json>): Option<PendingLink> {
    if value.None? || !value.value.JObject? then None
    else ParseFields(dateOf, Field(value.value, "code"), Field(value.value, "targetUrl"),
                     Field(value.value, "createdAt"), Field(value.value, "expiresAt"))
  }

  function ParseFields(dateOf: string -> Option<int>, code: Json, target: Json, created: Json, expires: Json)
    : Option<PendingLink>
  {
    if !code.JText? || !IsValidCode(code.text)
       || !target.JText? || |target.text| == 0 || |target.text| > MAX_TARGET_LENGTH
       || !created.JText? then None
    else
      var createdAt := dateOf(created.text);
      if createdAt.None? then None
      else if expires.JNull? then Some(PendingLink(code.text, target.text, createdAt.value, None))
      else if !expires.JText? then None
      else
        var expiresAt := dateOf(expires.text);
        if expiresAt.None? then None
        else Some(PendingLink(code.text, target.text, createdAt.value, expiresAt))
  }

  lemma RecordFields(code: Json, target: Json, created: Json, expires: Json)
    ensures var r := Record(code, target, created, expires);
            && Field(r, "code") == code && Field(r, "targetUrl") == target
            && Field(r, "createdAt") == created && Field(r, "expiresAt") == expires
  {
    assert |"code"| == 4 && "createdAt"[0] != "expiresAt"[0] && "targetUrl"[0] == 't';
  }

  /** The record of a link under its four names. */
  lemma SerializedFields(link: PendingLink)
    requires PrintableDates(link)
    ensures Serialize(link).JObject?
    ensures var o := Serialize(link).fields;
            && o.Keys == {"code", "targetUrl", "createdAt", "expiresAt"}
            && o["code"] == JText(link.code) && o["targetUrl"] == JText(link.targetUrl)
            && o["createdAt"] == JText(ToIso(link.createdAt))
            && o["expiresAt"] == if link.expiresAt.Some? then JText(ToIso(link.expiresAt.value)) else JNull
  {
    RecordFields(JText(link.code), JText(link.targetUrl), DateText(Some(link.createdAt)), DateText(link.expiresAt));
  }

  /** A parsed object stands for a link exactly when its four fields say that link, readable and with
      dates that the Date constructor takes. */
  lemma ParsesExactly(dateOf: string -> Option<int>, o: map<string, Json>, link: PendingLink)
    ensures Parse(dateOf, Some(JObject(o))) == Some(link)
       <==> && Readable(link)
            && "code" in o && o["code"] == JText(link.code)
            && "targetUrl" in o && o["targetUrl"] == JText(link.targetUrl)
            && "createdAt" in o && o["createdAt"].JText? && dateOf(o["createdAt"].text) == Some(link.createdAt)
            && "expiresAt" in o
            && if link.expiresAt.None? then o["expiresAt"] == JNull
               else o["expiresAt"].JText? && dateOf(o["expiresAt"].text) == link.expiresAt
  {
  }

  ghost predicate ReadsPrintedDates(dateOf: string -> Option<int>) {
    forall ms :: FIRST_MILLIS <= ms < END_MILLIS ==> dateOf(ToIso(ms)) == Some(ms)
  }

  /** A queued record comes back whole, or not at all when the worker's own checks reject it. */
  lemma ParseUndoesSerialize(dateOf: string -> Option<int>, link: PendingLink)
    requires PrintableDates(link) && ReadsPrintedDates(dateOf)
    ensures Parse(dateOf, Some(Serialize(link))) == (if Readable(link) then Some(link) else None)
  {
    var created, expires := DateText(Some(link.createdAt)), DateText(link.expiresAt);
    RecordFields(JText(link.code), JText(link.targetUrl), created, expires);
    assert dateOf(created.text) == Some(link.createdAt);
    assert link.expiresAt.Some? ==> dateOf(expires.text) == link.expiresAt;
  }

  /** The C++ timestamp parser is such a date reader. */
  lemma CoreParserReadsPrintedDates()
    ensures ReadsPrintedDates(ParseIso)
  {
    forall ms | FIRST_MILLIS <= ms < END_MILLIS
      ensures ParseIso(ToIso(ms)) == Some(ms)
    {
      RoundTrip(ms);
    }
  }
}
