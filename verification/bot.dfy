/**
 The `/pools` command's choice of reply, and how settings messages change
 what that command shows.
 */
module Bot {
  import opened Dict
  import opened Text
  import opened Pools
  import opened Settings

  /** What `get_pools` returned: `None` after a failed request, else the pool list. */
  datatype Fetch = FetchError | Fetched(pools: seq<Pool>)

  /** The three replies of `/pools`; the listing's text is built from `pools`. */
  datatype PoolsReply =
    | FetchFailed
    | NoMatchingPools
    | PoolList(pools: seq<Pool>)

  /** `/pools`. An empty fetch counts as a failure, as Python's truthiness
      test `if pools:` makes it. */
  function PoolsCommand(fetched: Fetch, filters: UserFilters, user: UserId): (r: PoolsReply)
    ensures r.FetchFailed? <==> fetched.FetchError? || |fetched.pools| == 0
    ensures r.NoMatchingPools? ==>
      forall p :: p in fetched.pools ==> !Admits(FiltersOf(filters, user), p)
    ensures r.PoolList? ==>
      && |r.pools| > 0
      && (forall p :: multiset(r.pools)[p] ==
            if Admits(FiltersOf(filters, user), p) then multiset(fetched.pools)[p] else 0)
      && exists idx :: Embeds(r.pools, fetched.pools, idx)
  {
    if fetched.FetchError? || |fetched.pools| == 0 then FetchFailed
    else
      var kept := FilterPools(fetched.pools, filters, user);
      if |kept| == 0 then NoMatchingPools
      else
        FilterIsOrderedSublist(fetched.pools, FiltersOf(filters, user));
        PoolList(kept)
  }

  /** A message from one user never changes the pools another user is shown. */
  lemma OtherUsersUnaffected(pools: seq<Pool>, filters: UserFilters, sender: UserId, text: string, user: UserId)
    requires sender != user
    ensures FilterPools(pools, HandleMessage(filters, sender, text).filters, user)
         == FilterPools(pools, filters, user)
  {
    assert FiltersOf(HandleMessage(filters, sender, text).filters, user) == FiltersOf(filters, user);
  }

  /** An unrecognised text creates the user's empty record if missing, and a
      duration is stored but never read: neither changes what the user is shown. */
  lemma UnknownAndDurationTextsUnobservable(pools: seq<Pool>, filters: UserFilters, user: UserId, text: string)
    requires HandleMessage(filters, user, text).reply.UnknownCommand?
          || HandleMessage(filters, user, text).reply.DurationSet?
    ensures FilterPools(pools, HandleMessage(filters, user, text).filters, user)
         == FilterPools(pools, filters, user)
  {
    var before := FiltersOf(filters, user);
    var after := HandleMessage(filters, user, text).filters[user];
    if HandleMessage(filters, user, text).reply.DurationSet? {
      assert after == before.(duration := Present(text));
      DurationIsIgnored(pools, before, Present(text));
    }
  }

  /** After a user sends the digits of `n`, every pool they are shown has a TVL of at least `n`. */
  lemma MinVolumeMessageBoundsTvl(pools: seq<Pool>, filters: UserFilters, user: UserId, n: nat)
    ensures forall p ::
              p in FilterPools(pools, HandleMessage(filters, user, DecimalString(n)).filters, user) ==>
              p.tvlUsd >= n as real
  {
    NumberSetsMinVolume(filters, user, n);
  }

  /** After a user without a minimum volume names USDC or BTC (in any case),
      they are shown every pool, whatever its symbol. */
  lemma OtherTokenTypeShowsEverything(pools: seq<Pool>, filters: UserFilters, user: UserId, text: string)
    requires ToUpper(text) in TokenTypes && ToUpper(text) != "SOL"
    requires FiltersOf(filters, user).minVolume.Absent?
    ensures FilterPools(pools, HandleMessage(filters, user, text).filters, user) == pools
  {
    var after := HandleMessage(filters, user, text).filters;
    assert FiltersOf(after, user).tokenType == Present(ToUpper(text));
    OtherTokenTypeWithoutMinimumKeepsAll(pools, FiltersOf(after, user));
  }

  /** After a user names SOL (in any case), only pools whose symbol contains "SOL" are shown. */
  lemma SolTokenTypeRequiresSol(pools: seq<Pool>, filters: UserFilters, user: UserId, text: string)
    requires ToUpper(text) == "SOL"
    ensures forall p ::
              p in FilterPools(pools, HandleMessage(filters, user, text).filters, user) ==>
              HasSubstring(p.symbol, "SOL")
  {
    var after := HandleMessage(filters, user, text).filters;
    assert FiltersOf(after, user).tokenType == Present("SOL");
  }
}
