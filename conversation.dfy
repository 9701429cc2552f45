/**
 * Flattening of a ChatGPT conversation export and fixed-width chunking of a
 * conversation's text before theme extraction. The export is taken as already-parsed
 * JSON; the UTC formatter, `json.dumps` and `str()` are parameters.
 */
module Conversation {
  import opened Common
  import opened Strings
  import opened Json

  datatype ChatMessage = ChatMessage(author: Json, content: string, timestamp: string)

  datatype ParsedConversation = ParsedConversation(title: Json, createTime: string, messages: seq<ChatMessage>)

  const Untitled: string := "Untitled Conversation"
  const NotAvailable: string := "N/A"
  const DefaultChunkLength: int := 1000

  /**
   * `format_timestamp`: "N/A" for a missing or falsy value; otherwise the UTC
   * rendering of the number (a bool counts as 1), where `utc` yields None when the
   * conversion raises. A truthy non-number cannot be converted.
   */
  function FormatTimestamp(ts: Option<Json>, utc: real -> Option<string>): (r: Result<string, Exception>)
    ensures (ts.None? || !Truthy(ts.value)) ==> r == Ok(NotAvailable)
    ensures r.Err? ==> ts.Some? && Truthy(ts.value)
    ensures ts.Some? && Truthy(ts.value) && !ts.value.JNumber? && !ts.value.JBool? ==> r == Err(TypeError)
    ensures ts.Some? && ts.value.JNumber? && ts.value.n != 0.0 && utc(ts.value.n).Some? ==> r == Ok(utc(ts.value.n).value)
  {
    if ts.None? || !Truthy(ts.value) then Ok(NotAvailable)
    else
      match ts.value
      case JNumber(n) => (if utc(n).Some? then Ok(utc(n).value) else Err(ValueError))
      case JBool(_) => (if utc(1.0).Some? then Ok(utc(1.0).value) else Err(ValueError))
      case _ => Err(TypeError)
  }

  /** One content part as text: strings verbatim, objects through `json.dumps`, anything else through `str()`. */
  function PartText(p: Json, dumps: Json -> string, pyStr: Json -> string): string
  {
    if p.JString? then p.s else if p.JObject? then dumps(p) else pyStr(p)
  }

  function PartTexts(parts: seq<Json>, dumps: Json -> string, pyStr: Json -> string): (r: seq<string>)
    ensures |r| == |parts| && forall i :: 0 <= i < |parts| ==> r[i] == PartText(parts[i], dumps, pyStr)
  {
    seq(|parts|, i requires 0 <= i < |parts| => PartText(parts[i], dumps, pyStr))
  }

  /** `process_content_parts`: each part as text, in input order, joined by newlines. */
  method ProcessContentParts(parts: seq<Json>, dumps: Json -> string, pyStr: Json -> string) returns (r: string)
    ensures r == Join(PartTexts(parts, dumps, pyStr), "\n")
  {
    var processed: seq<string> := [];
    var i := 0;
    while i < |parts|
      invariant 0 <= i <= |parts|
      invariant |processed| == i
      invariant forall k :: 0 <= k < i ==> processed[k] == PartText(parts[k], dumps, pyStr)
    {
      var part := parts[i];
      if part.JString? {
        processed := processed + [part.s];
      } else if part.JObject? {
        processed := processed + [dumps(part)];
      } else {
        processed := processed + [pyStr(part)];
      }
      i := i + 1;
    }
    assert processed == PartTexts(parts, dumps, pyStr);
    r := Join(processed, "\n");
  }

  /** Parts that are single-line strings come back verbatim when the joined text is split at its newlines. */
  lemma StringPartsRoundTrip(parts: seq<Json>, dumps: Json -> string, pyStr: Json -> string)
    requires |parts| >= 1
    requires forall i :: 0 <= i < |parts| ==> parts[i].JString? && '\n' !in parts[i].s
    ensures Split(Join(PartTexts(parts, dumps, pyStr), "\n"), '\n') == seq(|parts|, i requires 0 <= i < |parts| => parts[i].s)
  {
    var texts := PartTexts(parts, dumps, pyStr);
    assert texts == seq(|parts|, i requires 0 <= i < |parts| => parts[i].s);
    SplitJoin(texts, '\n');
  }

  /**
   * The text of a message: the `parts` of its `content` (an empty dict when absent)
   * through `process_content_parts`, or "" when there are no parts.
   */
  function MessageContent(message: seq<(string, Json)>, dumps: Json -> string, pyStr: Json -> string): (r: Result<string, Exception>)
    ensures Lookup(message, "content").None? ==> r == Ok("")
    ensures r.Err? ==> Lookup(message, "content").Some?
  {
    var content := GetOr(message, "content", JObject([]));
    if !content.JObject? then Err(AttributeError)
    else
      var parts := GetOr(content.fields, "parts", JArray([]));
      if !Truthy(parts) then Ok("")
      else
        match Iterate(parts)
        case Err(e) => Err(e)
        case Ok(ps) => Ok(Join(PartTexts(ps, dumps, pyStr), "\n"))
  }

  /** A content dict whose parts are missing or falsy gives the empty text. */
  lemma NoPartsNoText(message: seq<(string, Json)>, cfields: seq<(string, Json)>, dumps: Json -> string, pyStr: Json -> string)
    requires Lookup(message, "content") == Some(JObject(cfields))
    requires Lookup(cfields, "parts").None? || !Truthy(Lookup(cfields, "parts").value)
    ensures MessageContent(message, dumps, pyStr) == Ok("")
  {
  }

  /** A content dict whose parts are single-line strings gives those strings, one per line. */
  lemma StringPartsText(message: seq<(string, Json)>, cfields: seq<(string, Json)>, parts: seq<Json>, dumps: Json -> string, pyStr: Json -> string)
    requires Lookup(message, "content") == Some(JObject(cfields))
    requires Lookup(cfields, "parts") == Some(JArray(parts)) && |parts| >= 1
    requires forall i :: 0 <= i < |parts| ==> parts[i].JString? && '\n' !in parts[i].s
    ensures MessageContent(message, dumps, pyStr).Ok?
    ensures Split(MessageContent(message, dumps, pyStr).value, '\n') == seq(|parts|, i requires 0 <= i < |parts| => parts[i].s)
  {
    PartsText(message, cfields, parts, dumps, pyStr);
    StringPartsRoundTrip(parts, dumps, pyStr);
  }

  lemma PartsText(message: seq<(string, Json)>, cfields: seq<(string, Json)>, parts: seq<Json>, dumps: Json -> string, pyStr: Json -> string)
    requires Lookup(message, "content") == Some(JObject(cfields))
    requires Lookup(cfields, "parts") == Some(JArray(parts)) && |parts| >= 1
    ensures MessageContent(message, dumps, pyStr) == Ok(Join(PartTexts(parts, dumps, pyStr), "\n"))
  {
    assert GetOr(message, "content", JObject([])) == JObject(cfields);
    assert GetOr(cfields, "parts", JArray([])) == JArray(parts);
    assert Truthy(JArray(parts));
  }

  /** The message's `create_time`, formatted. */
  function MessageTime(message: seq<(string, Json)>, utc: real -> Option<string>): Result<string, Exception>
  {
    FormatTimestamp(Lookup(message, "create_time"), utc)
  }

  /**
   * One entry of a conversation's `mapping`: nothing when it holds no message,
   * else author role, content and timestamp, or the exception the lookups raise.
   */
  function ParseEntry(entry: Json, utc: real -> Option<string>, dumps: Json -> string, pyStr: Json -> string): (r: Result<Option<ChatMessage>, Exception>)
    ensures r == Ok(None) <==> entry.JObject? && !Truthy(GetOr(entry.fields, "message", JNull))
    ensures !entry.JObject? ==> r == Err(AttributeError)
  {
    if !entry.JObject? then Err(AttributeError)
    else
      var message := GetOr(entry.fields, "message", JNull);
      if !Truthy(message) then Ok(None)
      else if !message.JObject? then Err(TypeError)
      else
        match Lookup(message.fields, "author")
        case None => Err(KeyError)
        case Some(author) =>
          if !author.JObject? then Err(TypeError)
          else
            match Lookup(author.fields, "role")
            case None => Err(KeyError)
            case Some(role) =>
              match MessageContent(message.fields, dumps, pyStr)
              case Err(e) => Err(e)
              case Ok(text) =>
                match MessageTime(message.fields, utc)
                case Err(e) => Err(e)
                case Ok(stamp) => Ok(Some(ChatMessage(role, text, stamp)))
  }

  /** The messages of a `mapping`, in iteration order; the first exception ends the parse. */
  function ParseEntries(items: seq<(string, Json)>, utc: real -> Option<string>, dumps: Json -> string, pyStr: Json -> string): Result<seq<ChatMessage>, Exception>
  {
    if |items| == 0 then Ok([])
    else
      match ParseEntries(items[..|items| - 1], utc, dumps, pyStr)
      case Err(e) => Err(e)
      case Ok(ms) =>
        match ParseEntry(items[|items| - 1].1, utc, dumps, pyStr)
        case Err(e) => Err(e)
        case Ok(None) => Ok(ms)
        case Ok(Some(m)) => Ok(ms + [m])
  }

  /** The number of entries that hold a message. */
  function WithMessage(items: seq<(string, Json)>): nat
  {
    if |items| == 0 then 0
    else
      var entry := items[|items| - 1].1;
      WithMessage(items[..|items| - 1]) + (if entry.JObject? && Truthy(GetOr(entry.fields, "message", JNull)) then 1 else 0)
  }

  /** Entries without a message are skipped: a successful parse has one message per entry that holds one. */
  lemma {:induction false} EntriesSkipEmpty(items: seq<(string, Json)>, utc: real -> Option<string>, dumps: Json -> string, pyStr: Json -> string)
    requires ParseEntries(items, utc, dumps, pyStr).Ok?
    ensures |ParseEntries(items, utc, dumps, pyStr).value| == WithMessage(items)
  {
    if |items| > 0 {
      EntriesSkipEmpty(items[..|items| - 1], utc, dumps, pyStr);
    }
  }

  /** One conversation: its title (defaulted), creation time and messages. */
  function ParseConversation(convo: Json, utc: real -> Option<string>, dumps: Json -> string, pyStr: Json -> string): (r: Result<ParsedConversation, Exception>)
    ensures !convo.JObject? ==> r == Err(AttributeError)
    ensures r.Ok? ==> r.value.title == GetOr(convo.fields, "title", JString(Untitled))
  {
    if !convo.JObject? then Err(AttributeError)
    else
      var title := GetOr(convo.fields, "title", JString(Untitled));
      match FormatTimestamp(Lookup(convo.fields, "create_time"), utc)
      case Err(e) => Err(e)
      case Ok(created) =>
        var mapping := GetOr(convo.fields, "mapping", JObject([]));
        if !mapping.JObject? then Err(AttributeError)
        else
          match ParseEntries(Items(mapping.fields), utc, dumps, pyStr)
          case Err(e) => Err(e)
          case Ok(ms) => Ok(ParsedConversation(title, created, ms))
  }

  /** A conversation without a title is called "Untitled Conversation"; one without a mapping has no messages. */
  lemma DefaultsOfBareConversation(fields: seq<(string, Json)>, utc: real -> Option<string>, dumps: Json -> string, pyStr: Json -> string)
    requires Lookup(fields, "title").None?
    requires Lookup(fields, "mapping").None?
    requires Lookup(fields, "create_time").None?
    ensures ParseConversation(JObject(fields), utc, dumps, pyStr) == Ok(ParsedConversation(JString(Untitled), NotAvailable, []))
  {
    assert Items([]) == [];
  }

  /** `parse_conversations` as a value: one result per conversation, in order; the first exception ends the parse. */
  function ParseAll(data: seq<Json>, utc: real -> Option<string>, dumps: Json -> string, pyStr: Json -> string): Result<seq<ParsedConversation>, Exception>
  {
    if |data| == 0 then Ok([])
    else
      match ParseAll(data[..|data| - 1], utc, dumps, pyStr)
      case Err(e) => Err(e)
      case Ok(cs) =>
        match ParseConversation(data[|data| - 1], utc, dumps, pyStr)
        case Err(e) => Err(e)
        case Ok(c) => Ok(cs + [c])
  }

  /** One output per input conversation, in order, each the parse of that conversation. */
  lemma {:induction false} ParseAllPointwise(data: seq<Json>, utc: real -> Option<string>, dumps: Json -> string, pyStr: Json -> string)
    requires ParseAll(data, utc, dumps, pyStr).Ok?
    ensures |ParseAll(data, utc, dumps, pyStr).value| == |data|
    ensures forall i :: 0 <= i < |data| ==> ParseConversation(data[i], utc, dumps, pyStr) == Ok(ParseAll(data, utc, dumps, pyStr).value[i])
  {
    if |data| > 0 {
      var front := data[..|data| - 1];
      ParseAllPointwise(front, utc, dumps, pyStr);
      var cs := ParseAll(front, utc, dumps, pyStr).value;
      var c := ParseConversation(data[|data| - 1], utc, dumps, pyStr).value;
      assert ParseAll(data, utc, dumps, pyStr).value == cs + [c];
      forall i | 0 <= i < |data|
        ensures ParseConversation(data[i], utc, dumps, pyStr) == Ok((cs + [c])[i])
      {
        if i < |front| {
          assert front[i] == data[i];
        }
      }
    }
  }

  /** Conversely, when every conversation parses the whole parse succeeds. */
  lemma {:induction false} ParseAllSucceeds(data: seq<Json>, utc: real -> Option<string>, dumps: Json -> string, pyStr: Json -> string)
    requires forall i :: 0 <= i < |data| ==> ParseConversation(data[i], utc, dumps, pyStr).Ok?
    ensures ParseAll(data, utc, dumps, pyStr).Ok?
  {
    if |data| > 0 {
      var front := data[..|data| - 1];
      assert forall i :: 0 <= i < |front| ==> front[i] == data[i];
      ParseAllSucceeds(front, utc, dumps, pyStr);
    }
  }

  /** An exception in a prefix is the exception of the whole parse. */
  lemma {:induction false} ParseAllFailsEarly(data: seq<Json>, n: nat, utc: real -> Option<string>, dumps: Json -> string, pyStr: Json -> string)
    requires n <= |data| && ParseAll(data[..n], utc, dumps, pyStr).Err?
    ensures ParseAll(data, utc, dumps, pyStr) == ParseAll(data[..n], utc, dumps, pyStr)
  {
    if n < |data| {
      assert data[..|data| - 1][..n] == data[..n];
      ParseAllFailsEarly(data[..|data| - 1], n, utc, dumps, pyStr);
    } else {
      assert data[..n] == data;
    }
  }

  lemma {:induction false} ParseEntriesFailsEarly(items: seq<(string, Json)>, n: nat, utc: real -> Option<string>, dumps: Json -> string, pyStr: Json -> string)
    requires n <= |items| && ParseEntries(items[..n], utc, dumps, pyStr).Err?
    ensures ParseEntries(items, utc, dumps, pyStr) == ParseEntries(items[..n], utc, dumps, pyStr)
  {
    if n < |items| {
      assert items[..|items| - 1][..n] == items[..n];
      ParseEntriesFailsEarly(items[..|items| - 1], n, utc, dumps, pyStr);
    } else {
      assert items[..n] == items;
    }
  }

  /** The body of the inner loop of `parse_conversations` for one mapping entry. */
  method ConvertEntry(entry: Json, utc: real -> Option<string>, dumps: Json -> string, pyStr: Json -> string) returns (r: Result<Option<ChatMessage>, Exception>)
    ensures r == ParseEntry(entry, utc, dumps, pyStr)
  {
    if !entry.JObject? {
      return Err(AttributeError);
    }
    var message := GetOr(entry.fields, "message", JNull);
    if !Truthy(message) {
      return Ok(None);
    }
    if !message.JObject? {
      return Err(TypeError);
    }
    var author := Lookup(message.fields, "author");
    if author.None? {
      return Err(KeyError);
    }
    if !author.value.JObject? {
      return Err(TypeError);
    }
    var role := Lookup(author.value.fields, "role");
    if role.None? {
      return Err(KeyError);
    }
    var content := GetOr(message.fields, "content", JObject([]));
    if !content.JObject? {
      return Err(AttributeError);
    }
    var contentParts := GetOr(content.fields, "parts", JArray([]));
    var text := "";
    if Truthy(contentParts) {
      var parts := Iterate(contentParts);
      if parts.Err? {
        return Err(parts.error);
      }
      text := ProcessContentParts(parts.value, dumps, pyStr);
    }
    var stamp := FormatTimestamp(Lookup(message.fields, "create_time"), utc);
    if stamp.Err? {
      return Err(stamp.error);
    }
    r := Ok(Some(ChatMessage(role.value, text, stamp.value)));
  }

  /** The inner loop of `parse_conversations` over the entries of one mapping. */
  method ParseMapping(items: seq<(string, Json)>, utc: real -> Option<string>, dumps: Json -> string, pyStr: Json -> string)
    returns (r: Result<seq<ChatMessage>, Exception>)
    ensures r == ParseEntries(items, utc, dumps, pyStr)
  {
    var messages: seq<ChatMessage> := [];
    var j := 0;
    while j < |items|
      invariant 0 <= j <= |items|
      invariant ParseEntries(items[..j], utc, dumps, pyStr) == Ok(messages)
    {
      assert items[..j + 1][..j] == items[..j] && items[..j + 1][j] == items[j];
      var m := ConvertEntry(items[j].1, utc, dumps, pyStr);
      if m.Err? {
        ParseEntriesFailsEarly(items, j + 1, utc, dumps, pyStr);
        return Err(m.error);
      }
      if m.value.Some? {
        messages := messages + [m.value.value];
      }
      j := j + 1;
    }
    assert items[..j] == items;
    r := Ok(messages);
  }

  /** `parse_conversations`: the nested loops over conversations and mapping entries. */
  method ParseConversations(data: seq<Json>, utc: real -> Option<string>, dumps: Json -> string, pyStr: Json -> string)
    returns (r: Result<seq<ParsedConversation>, Exception>)
    ensures r == ParseAll(data, utc, dumps, pyStr)
  {
    var conversations: seq<ParsedConversation> := [];
    var i := 0;
    while i < |data|
      invariant 0 <= i <= |data|
      invariant ParseAll(data[..i], utc, dumps, pyStr) == Ok(conversations)
    {
      var convo := data[i];
      assert data[..i + 1][..i] == data[..i] && data[..i + 1][i] == convo;
      if !convo.JObject? {
        ParseAllFailsEarly(data, i + 1, utc, dumps, pyStr);
        return Err(AttributeError);
      }
      var title := GetOr(convo.fields, "title", JString(Untitled));
      var created := FormatTimestamp(Lookup(convo.fields, "create_time"), utc);
      if created.Err? {
        ParseAllFailsEarly(data, i + 1, utc, dumps, pyStr);
        return Err(created.error);
      }
      var mapping := GetOr(convo.fields, "mapping", JObject([]));
      if !mapping.JObject? {
        ParseAllFailsEarly(data, i + 1, utc, dumps, pyStr);
        return Err(AttributeError);
      }
      var messages := ParseMapping(Items(mapping.fields), utc, dumps, pyStr);
      if messages.Err? {
        assert ParseConversation(convo, utc, dumps, pyStr) == Err(messages.error);
        ParseAllFailsEarly(data, i + 1, utc, dumps, pyStr);
        return Err(messages.error);
      }
      conversations := conversations + [ParsedConversation(title, created.value, messages.value)];
      i := i + 1;
    }
    assert data[..i] == data;
    r := Ok(conversations);
  }

  /**
   * `chunk_conversation`: consecutive slices of `maxLength` characters. Python's
   * `range` raises for a zero step and yields nothing for a negative one.
   */
  function ChunkConversation(text: string, maxLength: int): (r: Result<seq<string>, Exception>)
    ensures maxLength == 0 <==> r.Err?
    ensures maxLength < 0 ==> r == Ok([])
    ensures maxLength > 0 ==> r == Ok(Chunks(text, maxLength))
  {
    if maxLength == 0 then Err(ValueError)
    else if maxLength < 0 then Ok([])
    else Ok(Chunks(text, maxLength))
  }

  /** Slices of width `width`, the last one possibly shorter. */
  function Chunks(text: string, width: nat): (r: seq<string>)
    requires width > 0
    ensures |text| == 0 <==> r == []
    ensures forall i :: 0 <= i < |r| ==> 0 < |r[i]| <= width
    ensures forall i :: 0 <= i < |r| - 1 ==> |r[i]| == width
    decreases |text|
  {
    if |text| == 0 then []
    else if |text| <= width then [text]
    else [text[..width]] + Chunks(text[width..], width)
  }

  /** Concatenating the chunks gives back the text. */
  lemma {:induction false} ChunksConcat(text: string, width: nat)
    requires width > 0
    ensures Concat(Chunks(text, width)) == text
    decreases |text|
  {
    if |text| > width {
      var rest := Chunks(text[width..], width);
      ChunksConcat(text[width..], width);
      assert ([text[..width]] + rest)[1..] == rest;
      assert text[..width] + text[width..] == text;
    } else if |text| > 0 {
      assert [text][1..] == [];
    }
  }

  /** Chunk `k` is the slice starting at `k * width`, as in `text[i:i+width] for i in range(0, len(text), width)`. */
  lemma {:induction false} ChunkAt(text: string, width: nat, k: nat)
    requires width > 0 && k < |Chunks(text, width)|
    ensures k * width < |text|
    ensures Chunks(text, width)[k] == text[k * width .. Min((k + 1) * width, |text|)]
    decreases |text|
  {
    if |text| > width && k > 0 {
      var rest := text[width..];
      assert Chunks(text, width)[k] == Chunks(rest, width)[k - 1];
      ChunkAt(rest, width, k - 1);
      var start, stop := (k - 1) * width, Min(k * width, |rest|);
      var lo, hi := k * width, Min((k + 1) * width, |text|);
      ShiftWindow(width, k, |text|);
      assert width + start == lo && width + stop == hi;
      assert rest[start..stop] == text[lo..hi];
    } else if k == 0 {
      MulSucc(0, width);
    }
  }

  function Min(a: int, b: int): int
  {
    if a <= b then a else b
  }

  /** Moving a window of chunks one width to the right. */
  lemma ShiftWindow(width: nat, k: nat, n: int)
    requires k > 0
    ensures width + (k - 1) * width == k * width
    ensures width + Min(k * width, n - width) == Min((k + 1) * width, n)
  {
    MulSucc(k - 1, width);
    MulSucc(k, width);
  }

  lemma MulSucc(k: nat, width: nat)
    ensures (k + 1) * width == k * width + width
  {
  }

  /** There are as many chunks as multiples of `width` below the length. */
  lemma {:induction false} ChunkCount(text: string, width: nat)
    requires width > 0
    ensures |Chunks(text, width)| * width >= |text|
    ensures |Chunks(text, width)| == 0 || (|Chunks(text, width)| - 1) * width < |text|
    decreases |text|
  {
    if |text| > width {
      ChunkCount(text[width..], width);
      var n := |Chunks(text[width..], width)|;
      assert |Chunks(text, width)| == n + 1;
      MulSucc(n, width);
      if n > 0 {
        MulSucc(n - 1, width);
      }
    }
  }

  /**
   * `process_conversation`: every chunk, at the default width and in order, is
   * handed to theme extraction (whose output is only printed); the result is
   * always the empty list.
   */
  method ProcessConversation(text: string) returns (themes: seq<Json>, extracted: seq<string>)
    ensures themes == []
    ensures ChunkConversation(text, DefaultChunkLength) == Ok(extracted)
  {
    var chunks := ChunkConversation(text, DefaultChunkLength).value;
    extracted := [];
    var idx := 0;
    while idx < |chunks|
      invariant 0 <= idx <= |chunks|
      invariant extracted == chunks[..idx]
    {
      extracted := extracted + [chunks[idx]];
      idx := idx + 1;
    }
    assert chunks[..idx] == chunks;
    themes := [];
  }
}
