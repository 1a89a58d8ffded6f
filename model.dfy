/**
 The `DiscordMessage` record of the hash router and the deep link it renders.

 A message is identified on Discord by three 64-bit snowflakes (channel, guild,
 message); the router attaches a trade hash to it. The link to the message is
 `https://discord.com/channels/{guild}/{channel}/{message}` with each id in
 decimal: note that the guild comes first, although the record and its
 constructor list the channel first.
 */
module Model {

  import opened Wrappers
  import opened Decimal
  import opened Strings

  datatype DiscordMessage = DiscordMessage(
    channel_id: U64,
    guild_id: U64,
    message_id: U64,
    trade_hash: string
  )

  /** The constructor: arguments in the order channel, guild, message, hash. */
  function New(channel_id: U64, guild_id: U64, message_id: U64, trade_hash: string): (m: DiscordMessage)
    ensures m.channel_id == channel_id
    ensures m.guild_id == guild_id
    ensures m.message_id == message_id
    ensures m.trade_hash == trade_hash
  {
    DiscordMessage(channel_id, guild_id, message_id, trade_hash)
  }

  const LinkPrefix: string := "https://discord.com/channels/"

  /** The three ids a link names, in the order the link names them. */
  datatype LinkIds = LinkIds(guild_id: U64, channel_id: U64, message_id: U64)

  function IdsOf(m: DiscordMessage): LinkIds {
    LinkIds(m.guild_id, m.channel_id, m.message_id)
  }

  /** The deep link to the message: the fixed prefix, then exactly three
      `/`-separated segments, the decimal texts of the guild, channel and
      message ids in that order. */
  function ConstructMessageLink(m: DiscordMessage): (link: string)
    ensures StartsWith(link, LinkPrefix)
    ensures LinkSegments(link) == [NatToDecimal(m.guild_id), NatToDecimal(m.channel_id), NatToDecimal(m.message_id)]
  {
    var g, c, n := NatToDecimal(m.guild_id), NatToDecimal(m.channel_id), NatToDecimal(m.message_id);
    CanonicalHasNoSlash(g);
    CanonicalHasNoSlash(c);
    CanonicalHasNoSlash(n);
    PrefixedThree(LinkPrefix, g, c, n, '/');
    LinkPrefix + g + "/" + c + "/" + n
  }

  /** The `/`-separated pieces after the prefix (none if the prefix is
      missing). */
  function LinkSegments(link: string): seq<string> {
    if StartsWith(link, LinkPrefix) then Split(link[|LinkPrefix|..], '/') else []
  }

  /** Reads a message link back into its three ids: the prefix must be present,
      the rest must split on `/` into exactly three canonical decimal numbers,
      each in the `u64` range. */
  function ParseLink(link: string): (r: Option<LinkIds>)
    ensures r.Some? ==> StartsWith(link, LinkPrefix) && |LinkSegments(link)| == 3
  {
    var parts := LinkSegments(link);
    if |parts| != 3 then None
    else
      match (ParseDecimal(parts[0]), ParseDecimal(parts[1]), ParseDecimal(parts[2]))
      case (Some(g), Some(c), Some(n)) =>
        if g < U64_LIMIT && c < U64_LIMIT && n < U64_LIMIT then Some(LinkIds(g, c, n)) else None
      case _ => None
  }

  lemma CanonicalHasNoSlash(s: string)
    requires Canonical(s)
    ensures '/' !in s
  {
  }

  /** Each segment of a link is the canonical decimal text of a `u64`, at most
      20 characters long, so the whole link is at most 62 characters longer
      than the prefix: the prefix, the three segments and two separators. */
  lemma LinkLength(m: DiscordMessage)
    ensures var link := ConstructMessageLink(m);
      && (forall i :: 0 <= i < 3 ==> Canonical(LinkSegments(link)[i]) && |LinkSegments(link)[i]| <= 20)
      && |link| == |LinkPrefix| + |NatToDecimal(m.guild_id)| + |NatToDecimal(m.channel_id)| + |NatToDecimal(m.message_id)| + 2
      && |link| <= |LinkPrefix| + 62
  {
    U64DecimalAtMost20(m.guild_id);
    U64DecimalAtMost20(m.channel_id);
    U64DecimalAtMost20(m.message_id);
  }

  /** Parsing a rendered link gives back the guild, channel and message ids. */
  lemma LinkRoundTrip(m: DiscordMessage)
    ensures ParseLink(ConstructMessageLink(m)) == Some(IdsOf(m))
  {
    DecimalRoundTrip(m.guild_id);
    DecimalRoundTrip(m.channel_id);
    DecimalRoundTrip(m.message_id);
  }

  /** A text the parser accepts is the prefix followed by the decimal texts of
      the guild, channel and message ids it returned, joined by `/`. */
  lemma ParsedLinkIsRendered(link: string, ids: LinkIds)
    requires ParseLink(link) == Some(ids)
    ensures link == LinkPrefix + NatToDecimal(ids.guild_id) + "/" + NatToDecimal(ids.channel_id) + "/" + NatToDecimal(ids.message_id)
  {
    var g, c, n := NatToDecimal(ids.guild_id), NatToDecimal(ids.channel_id), NatToDecimal(ids.message_id);
    ParsedLinkSegments(link, ids);
    PrefixedThreeInverse(link, LinkPrefix, g, c, n, '/');
  }

  /** The segments of an accepted link are the renderings of the ids. */
  lemma ParsedLinkSegments(link: string, ids: LinkIds)
    requires ParseLink(link) == Some(ids)
    ensures StartsWith(link, LinkPrefix)
    ensures LinkSegments(link) == [NatToDecimal(ids.guild_id), NatToDecimal(ids.channel_id), NatToDecimal(ids.message_id)]
  {
    var parts := LinkSegments(link);
    ParseDecimalIsInverse(parts[0], ids.guild_id);
    ParseDecimalIsInverse(parts[1], ids.channel_id);
    ParseDecimalIsInverse(parts[2], ids.message_id);
  }

  /** The parser accepts exactly the rendered links: a text parses to some ids
      if and only if it is the link of a message with those ids, whatever its
      trade hash. */
  lemma ParseLinkIsInverse(link: string, ids: LinkIds, trade_hash: string)
    ensures ParseLink(link) == Some(ids) <==>
            link == ConstructMessageLink(New(ids.channel_id, ids.guild_id, ids.message_id, trade_hash))
  {
    var m := New(ids.channel_id, ids.guild_id, ids.message_id, trade_hash);
    if ParseLink(link) == Some(ids) {
      ParsedLinkIsRendered(link, ids);
    }
    if link == ConstructMessageLink(m) {
      LinkRoundTrip(m);
    }
  }

  /** The link depends on the three ids and on nothing else: two messages have
      the same link exactly when their guild, channel and message ids agree,
      whatever their trade hashes. */
  lemma LinkInjective(m1: DiscordMessage, m2: DiscordMessage)
    ensures ConstructMessageLink(m1) == ConstructMessageLink(m2) <==> IdsOf(m1) == IdsOf(m2)
  {
    LinkRoundTrip(m1);
    LinkRoundTrip(m2);
  }
}
