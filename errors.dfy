/**
 The error vocabulary of the hash router and its two text renderings.

 `Errors` is a closed set of twelve kinds. Each kind has a one-line English
 sentence (its `Display` form) and an identifier (its derived `Debug` form, the
 variant name). `HashRoutingError` wraps one kind and its `Display` prints the
 identifier, not the sentence.

 In the renderings below every text is written as a concatenation of short
 pieces: the `...NotFound` and `...Invalid` kinds as a subject followed by the
 common ending, the others split at word boundaries. The concatenation is the
 exact text the program prints.
 */
module Errors {

  import opened Wrappers
  import opened Strings

  datatype Errors =
    | TradeHashNotFound
    | TradeHashInvalid
    | TradeHashAlreadyRouted
    | MessageIdNotFound
    | MessageIdInvalid
    | ChannelIdNotFound
    | ChannelIdInvalid
    | GuildIdNotFound
    | GuildIdInvalid
    | FailedToInitializeSupabase
    | FailedToUploadToSupabase
    | FailedToGetMessageByTradeHash

  datatype HashRoutingError = HashRoutingError(error: Errors)

  /** Every kind, in declaration order. */
  const AllErrors: seq<Errors> := [
    TradeHashNotFound, TradeHashInvalid, TradeHashAlreadyRouted,
    MessageIdNotFound, MessageIdInvalid,
    ChannelIdNotFound, ChannelIdInvalid,
    GuildIdNotFound, GuildIdInvalid,
    FailedToInitializeSupabase, FailedToUploadToSupabase, FailedToGetMessageByTradeHash
  ]

  /** The kinds for a value that was looked up and is absent. */
  predicate IsNotFound(e: Errors) {
    e.TradeHashNotFound? || e.MessageIdNotFound? || e.ChannelIdNotFound? || e.GuildIdNotFound?
  }

  /** The kinds for a value that was rejected as malformed. */
  predicate IsInvalid(e: Errors) {
    e.TradeHashInvalid? || e.MessageIdInvalid? || e.ChannelIdInvalid? || e.GuildIdInvalid?
  }

  /** The human-facing sentence of a kind: a single line, non-empty and ending
      in a full stop. */
  function Display(e: Errors): (s: string)
    ensures '\n' !in s
    ensures |s| > 0 && s[|s| - 1] == '.'
  {
    match e
    case TradeHashNotFound => "Trade hash" + " not found."
    case TradeHashInvalid => "Trade hash" + " is invalid."
    case TradeHashAlreadyRouted => "Trade hash" + " has already" + " been routed."
    case MessageIdNotFound => "Message ID" + " not found."
    case MessageIdInvalid => "Message ID" + " is invalid."
    case ChannelIdNotFound => "Channel ID" + " not found."
    case ChannelIdInvalid => "Channel ID" + " is invalid."
    case GuildIdNotFound => "Guild ID" + " not found."
    case GuildIdInvalid => "Guild ID" + " is invalid."
    case FailedToInitializeSupabase => "Failed to" + " initialize" + " Supabase" + " client."
    case FailedToUploadToSupabase => "Failed to" + " upload to" + " Supabase."
    case FailedToGetMessageByTradeHash => "Failed to" + " get message" + " by trade" + " hash."
  }

  /** The derived `Debug` form of a kind: its variant name, a single-line
      identifier that ends in a letter, never in a full stop. */
  function DebugName(e: Errors): (s: string)
    ensures |s| > 0 && ('a' <= s[|s| - 1] <= 'z' || 'A' <= s[|s| - 1] <= 'Z')
    ensures '\n' !in s
  {
    match e
    case TradeHashNotFound => "TradeHash" + "NotFound"
    case TradeHashInvalid => "TradeHash" + "Invalid"
    case TradeHashAlreadyRouted => "TradeHash" + "AlreadyRouted"
    case MessageIdNotFound => "MessageId" + "NotFound"
    case MessageIdInvalid => "MessageId" + "Invalid"
    case ChannelIdNotFound => "ChannelId" + "NotFound"
    case ChannelIdInvalid => "ChannelId" + "Invalid"
    case GuildIdNotFound => "GuildId" + "NotFound"
    case GuildIdInvalid => "GuildId" + "Invalid"
    case FailedToInitializeSupabase => "FailedTo" + "Initialize" + "Supabase"
    case FailedToUploadToSupabase => "FailedTo" + "UploadTo" + "Supabase"
    case FailedToGetMessageByTradeHash => "FailedTo" + "GetMessage" + "ByTradeHash"
  }

  /** `Display` of the wrapper: the identifier of the wrapped kind, which is
      never the kind's own sentence. */
  function DisplayHashRoutingError(h: HashRoutingError): (s: string)
    ensures s == DebugName(h.error)
    ensures s != Display(h.error)
  {
    DebugName(h.error)
  }

  /** The first kind in `es` whose identifier is `name`. */
  function FindByName(es: seq<Errors>, name: string): (r: Option<Errors>)
    ensures r.Some? ==> r.value in es && DebugName(r.value) == name
    ensures r.None? ==> forall i :: 0 <= i < |es| ==> DebugName(es[i]) != name
    decreases |es|
  {
    if |es| == 0 then None
    else if DebugName(es[0]) == name then Some(es[0])
    else FindByName(es[1..], name)
  }

  /** The first kind in `es` whose sentence is `sentence`. */
  function FindBySentence(es: seq<Errors>, sentence: string): (r: Option<Errors>)
    ensures r.Some? ==> r.value in es && Display(r.value) == sentence
    ensures r.None? ==> forall i :: 0 <= i < |es| ==> Display(es[i]) != sentence
    decreases |es|
  {
    if |es| == 0 then None
    else if Display(es[0]) == sentence then Some(es[0])
    else FindBySentence(es[1..], sentence)
  }

  /** Length and first character of a sentence; already these tell the twelve
      sentences apart. */
  function SentenceKey(e: Errors): (key: (nat, char))
    ensures key == (|Display(e)|, Display(e)[0])
  {
    match e
    case TradeHashNotFound => (21, 'T')
    case TradeHashInvalid => (22, 'T')
    case TradeHashAlreadyRouted => (35, 'T')
    case MessageIdNotFound => (21, 'M')
    case MessageIdInvalid => (22, 'M')
    case ChannelIdNotFound => (21, 'C')
    case ChannelIdInvalid => (22, 'C')
    case GuildIdNotFound => (19, 'G')
    case GuildIdInvalid => (20, 'G')
    case FailedToInitializeSupabase => (37, 'F')
    case FailedToUploadToSupabase => (29, 'F')
    case FailedToGetMessageByTradeHash => (36, 'F')
  }

  /** Length and first character of an identifier; already these tell the
      twelve identifiers apart. */
  function NameKey(e: Errors): (key: (nat, char))
    ensures key == (|DebugName(e)|, DebugName(e)[0])
  {
    match e
    case TradeHashNotFound => (17, 'T')
    case TradeHashInvalid => (16, 'T')
    case TradeHashAlreadyRouted => (22, 'T')
    case MessageIdNotFound => (17, 'M')
    case MessageIdInvalid => (16, 'M')
    case ChannelIdNotFound => (17, 'C')
    case ChannelIdInvalid => (16, 'C')
    case GuildIdNotFound => (15, 'G')
    case GuildIdInvalid => (14, 'G')
    case FailedToInitializeSupabase => (26, 'F')
    case FailedToUploadToSupabase => (24, 'F')
    case FailedToGetMessageByTradeHash => (29, 'F')
  }

  /** Every `...NotFound` kind reads "... not found." and is named `...NotFound`. */
  lemma NotFoundSuffix(e: Errors)
    requires IsNotFound(e)
    ensures EndsWith(Display(e), " not found.") && EndsWith(DebugName(e), "NotFound")
  {
    match e
    case TradeHashNotFound =>
      EndsWithAppend("Trade hash", " not found.");
      EndsWithAppend("TradeHash", "NotFound");
    case MessageIdNotFound =>
      EndsWithAppend("Message ID", " not found.");
      EndsWithAppend("MessageId", "NotFound");
    case ChannelIdNotFound =>
      EndsWithAppend("Channel ID", " not found.");
      EndsWithAppend("ChannelId", "NotFound");
    case GuildIdNotFound =>
      EndsWithAppend("Guild ID", " not found.");
      EndsWithAppend("GuildId", "NotFound");
  }

  /** Every `...Invalid` kind reads "... is invalid." and is named `...Invalid`. */
  lemma InvalidSuffix(e: Errors)
    requires IsInvalid(e)
    ensures EndsWith(Display(e), " is invalid.") && EndsWith(DebugName(e), "Invalid")
  {
    match e
    case TradeHashInvalid =>
      EndsWithAppend("Trade hash", " is invalid.");
      EndsWithAppend("TradeHash", "Invalid");
    case MessageIdInvalid =>
      EndsWithAppend("Message ID", " is invalid.");
      EndsWithAppend("MessageId", "Invalid");
    case ChannelIdInvalid =>
      EndsWithAppend("Channel ID", " is invalid.");
      EndsWithAppend("ChannelId", "Invalid");
    case GuildIdInvalid =>
      EndsWithAppend("Guild ID", " is invalid.");
      EndsWithAppend("GuildId", "Invalid");
  }

  /** The four kinds that are neither `...NotFound` nor `...Invalid` end in
      neither sentence ending and in neither identifier ending. */
  lemma OtherKindsSuffix(e: Errors)
    requires !IsNotFound(e) && !IsInvalid(e)
    ensures !EndsWith(Display(e), " not found.") && !EndsWith(Display(e), " is invalid.")
    ensures !EndsWith(DebugName(e), "NotFound") && !EndsWith(DebugName(e), "Invalid")
  {
    match e
    case TradeHashAlreadyRouted =>
      NotEndsWithAt(Display(e), " not found.", 3);
      NotEndsWithAt(Display(e), " is invalid.", 3);
      NotEndsWithAt(DebugName(e), "NotFound", 2);
      NotEndsWithAt(DebugName(e), "Invalid", 2);
    case FailedToInitializeSupabase =>
      NotEndsWithAt(Display(e), " not found.", 2);
      NotEndsWithAt(Display(e), " is invalid.", 2);
      NotEndsWithAt(DebugName(e), "NotFound", 1);
      NotEndsWithAt(DebugName(e), "Invalid", 1);
    case FailedToUploadToSupabase =>
      NotEndsWithAt(Display(e), " not found.", 2);
      NotEndsWithAt(Display(e), " is invalid.", 2);
      NotEndsWithAt(DebugName(e), "NotFound", 1);
      NotEndsWithAt(DebugName(e), "Invalid", 1);
    case FailedToGetMessageByTradeHash =>
      NotEndsWithAt(Display(e), " not found.", 2);
      NotEndsWithAt(Display(e), " is invalid.", 2);
      NotEndsWithAt(DebugName(e), "NotFound", 1);
      NotEndsWithAt(DebugName(e), "Invalid", 1);
  }

  /** A sentence ends in " not found." exactly for the `...NotFound` kinds, and
      in " is invalid." exactly for the `...Invalid` kinds; the same holds of the
      identifiers and the endings `NotFound` and `Invalid`. */
  lemma DisplaySuffixes(e: Errors)
    ensures EndsWith(Display(e), " not found.") <==> IsNotFound(e)
    ensures EndsWith(Display(e), " is invalid.") <==> IsInvalid(e)
    ensures EndsWith(DebugName(e), "NotFound") <==> IsNotFound(e)
    ensures EndsWith(DebugName(e), "Invalid") <==> IsInvalid(e)
  {
    EndingsExclusive(Display(e), " not found.", " is invalid.", 3);
    EndingsExclusive(DebugName(e), "NotFound", "Invalid", 2);
    if IsNotFound(e) {
      NotFoundSuffix(e);
    } else if IsInvalid(e) {
      InvalidSuffix(e);
    } else {
      OtherKindsSuffix(e);
    }
  }

  /** The enumeration of kinds is complete and has no repeats: twelve kinds. */
  lemma AllErrorsComplete(e: Errors)
    ensures e in AllErrors
    ensures |AllErrors| == 12
    ensures forall i, j :: 0 <= i < j < |AllErrors| ==> AllErrors[i] != AllErrors[j]
  {
  }

  /** Different kinds have different sentences. */
  lemma DisplayInjective(a: Errors, b: Errors)
    ensures Display(a) == Display(b) <==> a == b
  {
    if Display(a) == Display(b) {
      assert SentenceKey(a) == SentenceKey(b);
    }
  }

  /** Different kinds have different identifiers. */
  lemma DebugNameInjective(a: Errors, b: Errors)
    ensures DebugName(a) == DebugName(b) <==> a == b
  {
    if DebugName(a) == DebugName(b) {
      assert NameKey(a) == NameKey(b);
    }
  }

  /** Wrappers around different kinds print differently. */
  lemma HashRoutingErrorInjective(a: HashRoutingError, b: HashRoutingError)
    ensures DisplayHashRoutingError(a) == DisplayHashRoutingError(b) <==> a == b
  {
    DebugNameInjective(a.error, b.error);
  }

  /** The sentence identifies its kind: looking it up among all kinds finds it. */
  lemma DisplayRecoversKind(e: Errors)
    ensures FindBySentence(AllErrors, Display(e)) == Some(e)
  {
    AllErrorsComplete(e);
    var r := FindBySentence(AllErrors, Display(e));
    DisplayInjective(r.value, e);
  }

  /** The printed wrapper identifies its kind: looking its text up among the
      identifiers of all kinds finds the wrapped kind. */
  lemma HashRoutingErrorRecoversKind(h: HashRoutingError)
    ensures FindByName(AllErrors, DisplayHashRoutingError(h)) == Some(h.error)
  {
    AllErrorsComplete(h.error);
    var r := FindByName(AllErrors, DebugName(h.error));
    HashRoutingErrorInjective(HashRoutingError(r.value), h);
  }

  /** The documented example: `TradeHashNotFound` displays as
      "Trade hash not found.", and wrapped it prints "TradeHashNotFound". */
  lemma TradeHashNotFoundSentence()
    ensures Display(TradeHashNotFound) == "Trade hash not found."
    ensures DisplayHashRoutingError(HashRoutingError(TradeHashNotFound)) == "TradeHashNotFound"
  {
  }
}
