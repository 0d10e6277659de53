/** The record rules of the Telegram agent: which channel messages are kept, the
    priority flag, and the combined feed sorted newest first with its counts. The
    Telegram client, its sessions, rate-limit waits and the clock are not part of
    this model; the current time is a parameter. */
module FetchTelegram {
  import opened Text
  import Sorting

  /** The channels scraped, in order. */
  const TargetChannels: seq<string> :=
    ["geopolitics_live", "Middle_East_Spectator", "Bellincat", "Gaza_Now_News"]

  const MinMessageLength: nat := 50

  /** Matched against the upper-cased text. */
  const PriorityKeywords: seq<string> := ["BREAKING", "URGENT", "CONFIRMED", "DEVELOPING"]

  const High: string := "high"
  const Normal: string := "normal"

  // ---------------------------------------------------------------------------
  // Priority
  // ---------------------------------------------------------------------------

  /** The keyword search: does some keyword occur in the text? */
  function AnyKeywordIn(text: string, keywords: seq<string>): (r: bool)
    ensures r <==> exists i :: 0 <= i < |keywords| && Contains(text, keywords[i])
    decreases |keywords|
  {
    if keywords == [] then false
    else if Contains(text, keywords[0]) then true
    else
      var found := AnyKeywordIn(text, keywords[1..]);
      assert forall i :: 1 <= i < |keywords| ==> keywords[1..][i - 1] == keywords[i];
      found
  }

  /** check_priority: "high" exactly when some priority keyword occurs in the
      upper-cased text, "normal" otherwise. */
  function CheckPriority(text: string): (r: string)
    ensures r == High <==> exists i :: 0 <= i < |PriorityKeywords| && Contains(Upper(text), PriorityKeywords[i])
    ensures r == High || r == Normal
  {
    if AnyKeywordIn(Upper(text), PriorityKeywords) then High else Normal
  }

  /** The check ignores case: a text and its lower- or upper-cased form get the same
      priority. */
  lemma PriorityIgnoresCase(text: string)
    ensures CheckPriority(Lower(text)) == CheckPriority(text)
    ensures CheckPriority(Upper(text)) == CheckPriority(text)
  {
    UpperLower(text);
    UpperIdempotent(text);
  }

  // ---------------------------------------------------------------------------
  // Messages
  // ---------------------------------------------------------------------------

  /** A channel message as the client hands it over; `text` is None for a media-only
      message, `date` is its timestamp already written in ISO 8601 UTC with a 'Z'. */
  datatype Message = Message(id: int, text: Option<string>, date: Option<string>)

  datatype Record = Record(sourceId: string, text: string, date: string, messageId: int, priority: string)

  /** format_message: messages with no text, blank text, or fewer than 50 characters
      once stripped are dropped; a kept one carries its stripped text, its channel
      with the "telegram_" prefix, its date (or the current time when it has none),
      its id and its priority. */
  function FormatMessage(m: Message, channel: string, now: string): (r: Option<Record>)
    ensures r.None? <==> m.text.None? || |Strip(m.text.value)| < MinMessageLength
    ensures m.text.None? || Strip(m.text.value) == [] ==> r.None?
    ensures r.Some? ==>
      && r.value.text == Strip(m.text.value)
      && |r.value.text| >= MinMessageLength
      && r.value.sourceId == "telegram_" + channel
      && r.value.priority == CheckPriority(r.value.text)
      && r.value.messageId == m.id
      && r.value.date == (if m.date.Some? then m.date.value else now)
  {
    if m.text.None? || m.text.value == [] || Strip(m.text.value) == [] then None
    else
      var text := Strip(m.text.value);
      if |text| < MinMessageLength then None
      else
        var date := if m.date.Some? then m.date.value else now;
        Some(Record("telegram_" + channel, text, date, m.id, CheckPriority(text)))
  }

  /** fetch_channel_messages after the fetch: the kept messages of one channel, in
      the order received. */
  function FormatAll(messages: seq<Message>, channel: string, now: string): (r: seq<Record>)
    ensures |r| <= |messages|
    decreases |messages|
  {
    if messages == [] then []
    else
      var n := |messages| - 1;
      FormatAll(messages[..n], channel, now)
        + (match FormatMessage(messages[n], channel, now) case None => [] case Some(rec) => [rec])
  }

  /** Every kept record of a channel is long enough and names that channel. */
  lemma {:induction false} FormatAllValid(messages: seq<Message>, channel: string, now: string)
    ensures forall rec :: rec in FormatAll(messages, channel, now) ==>
      |rec.text| >= MinMessageLength && rec.sourceId == "telegram_" + channel
    decreases |messages|
  {
    if messages != [] {
      FormatAllValid(messages[..|messages| - 1], channel, now);
    }
  }

  /** The kept messages of every channel in turn (`all_messages.extend`). */
  function AllFormatted(received: seq<seq<Message>>, now: string): seq<Record>
    requires |received| <= |TargetChannels|
    decreases |received|
  {
    if received == [] then []
    else
      var n := |received| - 1;
      AllFormatted(received[..n], now) + FormatAll(received[n], TargetChannels[n], now)
  }

  /** Every record of the feed is long enough and comes from a target channel. */
  lemma {:induction false} AllFormattedValid(received: seq<seq<Message>>, now: string)
    requires |received| <= |TargetChannels|
    ensures forall rec :: rec in AllFormatted(received, now) ==>
      |rec.text| >= MinMessageLength
      && exists i :: 0 <= i < |received| && rec.sourceId == "telegram_" + TargetChannels[i]
    decreases |received|
  {
    if received != [] {
      var n := |received| - 1;
      AllFormattedValid(received[..n], now);
      FormatAllValid(received[n], TargetChannels[n], now);
    }
  }

  // ---------------------------------------------------------------------------
  // The combined feed
  // ---------------------------------------------------------------------------

  predicate LaterFirst(a: Record, b: Record) {
    StrLe(b.date, a.date)
  }

  lemma LaterFirstIsPreorder()
    ensures Sorting.TotalPreorder(LaterFirst)
  {
    forall a: Record, b: Record ensures LaterFirst(a, b) || LaterFirst(b, a) {
      StrLeTotal(a.date, b.date);
    }
    forall a: Record, b: Record, c: Record | LaterFirst(a, b) && LaterFirst(b, c)
      ensures LaterFirst(a, c)
    {
      StrLeTransitive(c.date, b.date, a.date);
    }
  }

  /** Number of high-priority records. */
  function HighCount(records: seq<Record>): (r: nat)
    ensures r <= |records|
    decreases |records|
  {
    if records == [] then 0
    else
      var n := |records| - 1;
      HighCount(records[..n]) + (if records[n].priority == High then 1 else 0)
  }

  lemma AllFormattedStep(received: seq<seq<Message>>, i: nat, now: string)
    requires i < |received| <= |TargetChannels|
    ensures AllFormatted(received[..i + 1], now)
      == AllFormatted(received[..i], now) + FormatAll(received[i], TargetChannels[i], now)
  {
    assert received[..i + 1][..i] == received[..i];
  }

  /** The feed sorted newest first is sorted, and keeps only long enough texts. */
  lemma SortedFeed(received: seq<seq<Message>>, now: string)
    requires |received| <= |TargetChannels|
    ensures var sorted := Sorting.SortDesc(AllFormatted(received, now), LaterFirst);
      && Sorting.SortedDesc(sorted, LaterFirst)
      && forall rec :: rec in sorted ==> |rec.text| >= MinMessageLength
  {
    var all := AllFormatted(received, now);
    var sorted := Sorting.SortDesc(all, LaterFirst);
    LaterFirstIsPreorder();
    Sorting.SortDescSorted(all, LaterFirst);
    AllFormattedValid(received, now);
    forall rec | rec in sorted ensures |rec.text| >= MinMessageLength {
      assert rec in multiset(sorted);
    }
  }

  /** main after the fetch: the kept messages of every channel gathered in channel
      order, sorted by date newest first, with the total and the high-priority count
      written beside them. `received[i]` is what the i-th target channel returned. */
  method CollectFeed(received: seq<seq<Message>>, now: string)
    returns (messages: seq<Record>, totalMessages: nat, highPriorityCount: nat)
    requires |received| == |TargetChannels|
    ensures multiset(messages) == multiset(AllFormatted(received, now))
    ensures Sorting.SortedDesc(messages, LaterFirst)
    ensures totalMessages == |messages| && highPriorityCount == HighCount(messages)
    ensures highPriorityCount <= totalMessages
    ensures forall rec :: rec in messages ==> |rec.text| >= MinMessageLength
  {
    var all: seq<Record> := [];
    var i := 0;
    while i < |TargetChannels|
      invariant 0 <= i <= |TargetChannels|
      invariant all == AllFormatted(received[..i], now)
    {
      AllFormattedStep(received, i, now);
      all := all + FormatAll(received[i], TargetChannels[i], now);
      i := i + 1;
    }
    assert received[..i] == received;
    messages := Sorting.SortDesc(all, LaterFirst);
    SortedFeed(received, now);
    totalMessages := |messages|;
    highPriorityCount := HighCount(messages);
  }
}
