/**
 The settings half of `handle_message`: each plain text a user sends is read
 as one filter setting and stored in that user's record, creating the record
 (empty) first if the user has none. The confirmation the bot sends back is
 modelled by which setting it confirms, not by its wording.
 */
module Settings {
  import opened Dict
  import opened Text
  import opened Pools

  /** The token types a text may name, case-insensitively. */
  const TokenTypes: seq<string> := ["SOL", "USDC", "BTC"]

  /** What a text was read as, which is also what the reply confirms. A minimum
      volume is confirmed by echoing the raw text, a token type in upper case. */
  datatype Reply =
    | MinVolumeSet(text: string)
    | TokenTypeSet(name: string)
    | DurationSet(text: string)
    | UnknownCommand

  /** The new filter map and the reply sent. */
  datatype Handled = Handled(filters: UserFilters, reply: Reply)

  /** Reads a text in the order `handle_message` tests it: digits, then a token type,
      then a trailing "h". The three readings never overlap, so each holds
      exactly when its own test passes, whatever the order. */
  function Classify(text: string): (reply: Reply)
    ensures reply.MinVolumeSet? <==> IsAllDigits(text)
    ensures reply.TokenTypeSet? <==> ToUpper(text) in TokenTypes
    ensures reply.DurationSet? <==> EndsWith(text, "h")
    ensures reply.MinVolumeSet? || reply.DurationSet? ==> reply.text == text
    ensures reply.TokenTypeSet? ==> reply.name == ToUpper(text) && reply.name in TokenTypes
  {
    ClassesAreDisjoint(text);
    if IsAllDigits(text) then MinVolumeSet(text)
    else if ToUpper(text) in TokenTypes then TokenTypeSet(ToUpper(text))
    else if EndsWith(text, "h") then DurationSet(text)
    else UnknownCommand
  }

  /** No text passes two of the three tests. */
  lemma ClassesAreDisjoint(text: string)
    ensures !(IsAllDigits(text) && ToUpper(text) in TokenTypes)
    ensures !(IsAllDigits(text) && EndsWith(text, "h"))
    ensures !(ToUpper(text) in TokenTypes && EndsWith(text, "h"))
  {
    if IsAllDigits(text) {
      DigitsNameNoTokenType(text);
    }
    if EndsWith(text, "h") {
      TrailingHNamesNoTokenType(text);
    }
  }

  /** Upper-casing leaves a digit text as it is, and no token type starts with a digit. */
  lemma DigitsNameNoTokenType(text: string)
    requires IsAllDigits(text)
    ensures ToUpper(text) !in TokenTypes
    ensures !EndsWith(text, "h")
  {
    var u := ToUpper(text);
    assert UpperChar(text[0]) == text[0];
    assert IsDigit(u[0]);
    assert u != "SOL" && u != "USDC" && u != "BTC";
    assert IsDigit(text[|text| - 1]);
  }

  /** A text ending in "h" upper-cases to one ending in "H", and no token type does. */
  lemma TrailingHNamesNoTokenType(text: string)
    requires EndsWith(text, "h")
    ensures ToUpper(text) !in TokenTypes
  {
    var p :| p + "h" == text;
    assert text[|text| - 1] == 'h';
    var u := ToUpper(text);
    assert u[|u| - 1] == 'H';
    assert u != "SOL" && u != "USDC" && u != "BTC";
  }

  /** The record changed in at most the one key the reply names. */
  predicate ChangesOnly(before: FilterRecord, after: FilterRecord, reply: Reply) {
    && (!reply.MinVolumeSet? ==> after.minVolume == before.minVolume)
    && (!reply.TokenTypeSet? ==> after.tokenType == before.tokenType)
    && (!reply.DurationSet? ==> after.duration == before.duration)
  }

  /** Stores one setting in a record; an unrecognised text stores nothing. */
  function Apply(rec: FilterRecord, reply: Reply): (after: FilterRecord)
    requires reply.MinVolumeSet? ==> IsAllDigits(reply.text)
    ensures ChangesOnly(rec, after, reply)
    ensures reply.MinVolumeSet? ==> after.minVolume == Present(DecimalValue(reply.text) as real)
    ensures reply.TokenTypeSet? ==> after.tokenType == Present(reply.name)
    ensures reply.DurationSet? ==> after.duration == Present(reply.text)
  {
    match reply
    case MinVolumeSet(text) => rec.(minVolume := Present(DecimalValue(text) as real))
    case TokenTypeSet(name) => rec.(tokenType := Present(name))
    case DurationSet(text) => rec.(duration := Present(text))
    case UnknownCommand => rec
  }

  /** `handle_message` for user `user` sending `text`. */
  function HandleMessage(filters: UserFilters, user: UserId, text: string): (h: Handled)
    ensures h.filters.Keys == filters.Keys + {user}
    ensures forall u :: u in filters && u != user ==> h.filters[u] == filters[u]
    ensures ChangesOnly(FiltersOf(filters, user), h.filters[user], h.reply)
    ensures IsAllDigits(text) ==>
      h.reply == MinVolumeSet(text) && h.filters[user].minVolume == Present(DecimalValue(text) as real)
    ensures ToUpper(text) in TokenTypes ==>
      h.reply == TokenTypeSet(ToUpper(text)) && h.filters[user].tokenType == Present(ToUpper(text))
    ensures EndsWith(text, "h") ==>
      h.reply == DurationSet(text) && h.filters[user].duration == Present(text)
    ensures !IsAllDigits(text) && ToUpper(text) !in TokenTypes && !EndsWith(text, "h") ==>
      h.reply == UnknownCommand && h.filters[user] == FiltersOf(filters, user)
  {
    var reply := Classify(text);
    Handled(filters[user := Apply(FiltersOf(filters, user), reply)], reply)
  }

  /** Sending the decimal spelling of `n` sets the minimum volume to `n`. */
  lemma NumberSetsMinVolume(filters: UserFilters, user: UserId, n: nat)
    ensures HandleMessage(filters, user, DecimalString(n)).filters[user].minVolume == Present(n as real)
    ensures HandleMessage(filters, user, DecimalString(n)).reply == MinVolumeSet(DecimalString(n))
  {
    DecimalValueOfString(n);
  }

  /** A text names a token type exactly when it spells it in any mix of cases;
      the type is then stored in upper case. */
  lemma TokenTypeIsCaseInsensitive(filters: UserFilters, user: UserId, text: string, t: string)
    requires t in TokenTypes
    ensures HandleMessage(filters, user, text).reply == TokenTypeSet(t) <==>
      |text| == |t| && forall i :: 0 <= i < |t| ==> text[i] == t[i] || text[i] == LowerChar(t[i])
    ensures HandleMessage(filters, user, text).reply == TokenTypeSet(t) ==>
      HandleMessage(filters, user, text).filters[user].tokenType == Present(t)
  {
    assert IsUpperWord(t);
    UpperMatchesIff(text, t);
  }

  /** Any text whose last character is "h" is stored as the duration, verbatim. */
  lemma TrailingHSetsDuration(filters: UserFilters, user: UserId, prefix: string)
    ensures HandleMessage(filters, user, prefix + "h").filters[user].duration == Present(prefix + "h")
    ensures HandleMessage(filters, user, prefix + "h").reply == DurationSet(prefix + "h")
  {
    assert EndsWith(prefix + "h", "h");
  }

  /** Sending the same text twice has the effect of sending it once. */
  lemma HandleMessageIdempotent(filters: UserFilters, user: UserId, text: string)
    ensures HandleMessage(HandleMessage(filters, user, text).filters, user, text)
         == HandleMessage(filters, user, text)
  {
  }

  /** Messages from two different users can be handled in either order. */
  lemma DifferentUsersCommute(filters: UserFilters, u: UserId, a: string, v: UserId, b: string)
    requires u != v
    ensures HandleMessage(HandleMessage(filters, u, a).filters, v, b).filters
         == HandleMessage(HandleMessage(filters, v, b).filters, u, a).filters
  {
  }

  /** The users who sent at least one of `messages`. */
  function Senders(messages: seq<(UserId, string)>): set<UserId> {
    if |messages| == 0 then {} else {messages[0].0} + Senders(messages[1..])
  }

  /** Applying a sequence of messages, in order: exactly the senders gain an
      entry, and users who sent nothing keep their record. */
  function HandleAll(filters: UserFilters, messages: seq<(UserId, string)>): (r: UserFilters)
    ensures r.Keys == filters.Keys + Senders(messages)
    ensures forall u :: u in filters && u !in Senders(messages) ==> r[u] == filters[u]
    decreases |messages|
  {
    if |messages| == 0 then filters
    else HandleAll(HandleMessage(filters, messages[0].0, messages[0].1).filters, messages[1..])
  }
}
