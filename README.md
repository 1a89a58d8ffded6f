# hash-router: the message record, its deep link and the error vocabulary

The hash router attaches a trade hash to a Discord message and keeps the
association in a remote table. Two parts of it are self-contained and
deterministic, and this project models them in Dafny and proves their
properties:

- `src/model.rs`: the `DiscordMessage` record (channel, guild and message
  snowflakes plus the trade hash), its constructor `new`, and
  `construct_message_link`. That function renders
  `https://discord.com/channels/{guild}/{channel}/{message}` with each `u64` in
  decimal.
- `src/errors.rs`: the closed `Errors` enum of twelve kinds, its `Display`
  sentences, and `HashRoutingError`. The `Display` of `HashRoutingError` prints
  the derived `Debug` form of the wrapped kind, which is its variant name.

Modules:

- `Decimal` (`decimal.dfy`): the `u64` range as the subset type `U64`, the
  decimal rendering Rust uses for `{}` (`NatToDecimal`), and a strict parser
  (`ParseDecimal`) that is its exact inverse.
- `Strings` (`strings.dfy`): prefix and suffix tests, and splitting on a
  separator character as `str::split` does, with joining back.
- `Model` (`model.dfy`): `DiscordMessage`, `New`, `ConstructMessageLink`, and
  a link parser `ParseLink` as the formatter's partner.
- `Errors` (`errors.dfy`): `Errors`, `HashRoutingError`, the two renderings,
  and lookups from a printed text back to its kind.
- `Wrappers` (`wrappers.dfy`): the `Option` type.

Both core files are pure, so everything is modelled with datatypes, functions
and lemmas. `construct_message_link` borrows `&self` immutably, and a Dafny
function of a datatype value is deterministic and cannot change its argument.
So "leaves the message unchanged and is deterministic" holds by construction,
and no member states it.

Where the documentation and the code disagree, the model follows the code:

- The doc example at `src/errors.rs:22` builds `HashRoutingError` from a
  string. The field is of type `Errors` (`src/errors.rs:28`), and the model uses
  that.
- The doc example at `src/db/supabase/client.rs:68-73` passes
  `message_id, channel_id, guild_id, trade_hash` to `DiscordMessage::new`. The
  constructor takes `channel_id, guild_id, message_id, trade_hash`
  (`src/model.rs:36-41`), and `New` uses that order.
- The doc list at `src/errors.rs:101-103` writes three sentences without a full
  stop. The `match` at `src/errors.rs:132-134` prints them with one, and
  `Display` does the same.
- `src/errors.rs:52-65` declares twelve kinds, but only two are ever produced:
  `FailedToUploadToSupabase` (`src/db/supabase/client.rs:140`) and
  `FailedToGetMessageByTradeHash` (`src/db/supabase/client.rs:162`). No code
  raises `TradeHashAlreadyRouted`, a `...NotFound` kind or a `...Invalid`
  kind. An empty lookup result is returned as an empty list
  (`src/db/supabase/client.rs:161`), not as an error. The model covers the
  vocabulary and its renderings, not who raises which kind.

In `Display` and `DebugName`, each text is written as a concatenation of
short pieces. The `...NotFound` and `...Invalid` kinds are a subject followed
by the shared ending, for example `"Trade hash" + " not found."`. The other
kinds are split at word boundaries, for example
`"Failed to" + " upload to" + " Supabase."`. Each concatenation is exactly the
literal the program prints, and `TradeHashNotFoundSentence` checks one of them
against the whole literal.

## Model

| member | source | states |
|---|---|---|
| `Model.DiscordMessage` | src/model.rs:13-18 | the record: channel, guild and message ids, each a `u64` (0 to 2^64 - 1), and the trade hash as a string |
| `Model.New` | src/model.rs:36-49 | each argument is stored in the field of the same name, in the parameter order channel, guild, message, trade hash |
| `Model.ConstructMessageLink` | src/model.rs:61-65 | the link starts with `https://discord.com/channels/`, and the rest splits on `/` into exactly three segments: the decimal texts of the guild, channel and message ids, in that order |
| `Model.LinkLength` | src/model.rs:14-16 | each link segment is canonical decimal (digits only, no leading zero unless the id is 0) of at most 20 characters; the link is the prefix length + 2 + the three digit counts, so at most prefix + 62 |
| `Model.LinkRoundTrip` | src/model.rs:64 | parsing a rendered link gives back (guild_id, channel_id, message_id) |
| `Model.ParseLinkIsInverse` | src/model.rs:61-65 | a text parses to an id triple exactly when it is the link of a message built by `new` with those ids, for any trade hash |
| `Model.LinkInjective` | src/model.rs:61-65 | two messages have the same link exactly when their guild, channel and message ids agree; the trade hash never matters |
| `Model.ParsedLinkSegments` | src/model.rs:64 | an accepted link carries the prefix, and its three segments are the decimal texts of the guild, channel and message ids the parser returned |
| `Model.ParsedLinkIsRendered` | src/model.rs:64 | an accepted link is exactly the prefix followed by those three decimal texts joined by `/` |
| `Model.ParseLink` | src/model.rs:64 | a link is accepted only if it carries the fixed prefix and splits into three segments after it |
| `Decimal.NatToDecimal` | src/model.rs:64 | the `{}` rendering of an unsigned integer: non-empty, digits only, a leading `0` exactly for the value 0 |
| `Decimal.ParseDecimal` | src/model.rs:64 | the strict decimal parser accepts exactly the canonical digit strings |
| `Decimal.DigitsValueOfDecimal` | src/model.rs:64 | reading the rendered digits back as a number gives the number |
| `Decimal.DecimalRoundTrip` | src/model.rs:64 | parsing the rendering of n gives n |
| `Decimal.DecimalOfDigitsValue` | src/model.rs:64 | every canonical digit string is the rendering of its own value |
| `Decimal.ParseDecimalIsInverse` | src/model.rs:64 | the parser returns n for a text exactly when the text is the rendering of n |
| `Decimal.DecimalInjective` | src/model.rs:64 | distinct numbers render differently |
| `Decimal.DecimalLengthBound` | src/model.rs:64 | the rendering of n has at most k digits exactly when n < 10^k |
| `Decimal.U64DecimalAtMost20` | src/model.rs:14-16 | every `u64` renders to at most 20 digits |
| `Decimal.U64MaxHas20Digits` | src/model.rs:14-16 | the largest `u64` renders to exactly 20 digits, so the bound is tight |
| `Errors.Errors` | src/errors.rs:52-65 | the twelve error kinds, in declaration order, with no payload |
| `Errors.HashRoutingError` | src/errors.rs:25-29 | the wrapper: one field `error` holding an `Errors` kind |
| `Errors.Display` | src/errors.rs:120-137 | every one of the twelve kinds has a sentence, which is a single line (no newline), non-empty and ends in a full stop |
| `Errors.DebugName` | src/errors.rs:51-65 | the derived `Debug` form of each kind is its variant name: a single line, non-empty, ending in a letter |
| `Errors.DisplayHashRoutingError` | src/errors.rs:76-84 | the wrapper prints the identifier of the wrapped kind, never that kind's sentence |
| `Errors.NotFoundSuffix` | src/errors.rs:123-130 | every `...NotFound` kind reads "... not found." and has a name ending in `NotFound` |
| `Errors.InvalidSuffix` | src/errors.rs:124-131 | every `...Invalid` kind reads "... is invalid." and has a name ending in `Invalid` |
| `Errors.OtherKindsSuffix` | src/errors.rs:125-134 | the four other kinds end in neither sentence ending and in neither name ending |
| `Errors.DisplaySuffixes` | src/errors.rs:123-134 | a sentence ends in " not found." (" is invalid.") exactly for the `...NotFound` (`...Invalid`) kinds, and the same holds for the identifiers |
| `Errors.AllErrorsComplete` | src/errors.rs:52-65 | the twelve kinds listed in declaration order cover every kind, without repeats |
| `Errors.DisplayInjective` | src/errors.rs:123-134 | the twelve sentences are pairwise distinct |
| `Errors.DebugNameInjective` | src/errors.rs:52-65 | the twelve identifiers are pairwise distinct |
| `Errors.HashRoutingErrorInjective` | src/errors.rs:76-84 | wrappers around different kinds print different strings |
| `Errors.DisplayRecoversKind` | src/errors.rs:120-137 | looking a sentence up among all kinds finds the kind that printed it |
| `Errors.HashRoutingErrorRecoversKind` | src/errors.rs:76-84 | looking a printed wrapper up among the identifiers of all kinds finds the wrapped kind |
| `Errors.TradeHashNotFoundSentence` | src/errors.rs:105-114 | `TradeHashNotFound` displays exactly "Trade hash not found.", and wrapped it prints "TradeHashNotFound" |

## Left out

- `src/db/supabase/client.rs` is not part of this model. It is a thin async
  wrapper over the `supabase_rs` client, whose code is not available here. It
  has three parts:
  - `initialize_supabase_client` reads `SUPABASE_PUBLIC_URL` and
    `SUPABASE_ANON_KEY` from the environment. A missing variable is passed on
    with `?` as a `Box<dyn Error>` (`src/db/supabase/client.rs:44-50`).
  - `add_new_message` calls `insert_if_unique`. On success it returns the
    message's trade hash (`src/db/supabase/client.rs:138`). Any store error
    becomes `FailedToUploadToSupabase` (`src/db/supabase/client.rs:140`).
  - `get_message_by_trade_hash` runs a `select ... eq ... execute` query. On
    success it returns the rows found (`src/db/supabase/client.rs:161`). Any
    store error becomes `FailedToGetMessageByTradeHash`
    (`src/db/supabase/client.rs:162`).

  Both methods panic through `.expect` if the client cannot be built
  (`src/db/supabase/client.rs:121-123` and `149-151`). Any uniqueness
  guarantee belongs to the remote store.
- The register and lookup router (duplicate detection, not-found on empty
  results, concurrent registration races, timeouts) is not implemented by the
  code, so it is not modelled.
- `src/lib.rs` and `src/db/supabase/mod.rs` only declare modules. The
  `utils`, `success` and `router` modules they name are not part of this model.
- The `fmt::Formatter` plumbing of both `Display` impls is left out. Each impl
  is modelled as the string it writes. The impls raise no error of their own:
  they return whatever `write!` returns (`src/errors.rs:82`,
  `src/errors.rs:123-134`), which is an error only when the underlying sink
  fails. That `fmt::Result`, and so a failing sink, is not modelled.
- Strings are modelled as sequences of characters, not UTF-8 bytes. All texts
  rendered here are ASCII, so this changes nothing for them.
- `Model.ParseLink` and `Decimal.ParseDecimal` are strict: they accept only
  canonical digits, with no sign and no leading zero. They are the formatter's
  inverse, not a model of Rust's `u64::from_str`, which also accepts a leading
  `+` and leading zeros.
