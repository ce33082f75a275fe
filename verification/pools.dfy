/**
 The pool records fetched from the yields API, the per-user filter records
 kept in `USER_FILTERS`, and `filter_pools`, which keeps the pools a user's
 filters admit, in their original order.
 */
module Pools {
  import opened Dict
  import opened Text

  /** One pool record; only the two fields the filter reads are modelled. */
  datatype Pool = Pool(symbol: string, tvlUsd: real)

  /** One user's filter record. Each key of the Python dictionary is either
      `Absent` or present with its value. */
  datatype FilterRecord = FilterRecord(
    minVolume: Entry<real>,
    tokenType: Entry<string>,
    duration: Entry<string>)

  type UserId = int

  /** `USER_FILTERS`: the filter record of every user who has one. */
  type UserFilters = map<UserId, FilterRecord>

  /** The empty dictionary `{}`. */
  const NoFilters := FilterRecord(Absent, Absent, Absent)

  /** The token type the filter assumes when the user has not chosen one. */
  const DefaultTokenType := "SOL"

  /** The symbol check is in force: the token type is absent or "SOL". */
  predicate SymbolCheckApplies(rec: FilterRecord) {
    rec.tokenType.Absent? || rec.tokenType.value == DefaultTokenType
  }

  /** `USER_FILTERS.get(user_id, {})`: a user's own record, or for a user
      without one the empty record, which checks symbols for SOL and sets no
      minimum. */
  function FiltersOf(filters: UserFilters, user: UserId): (rec: FilterRecord)
    ensures user in filters ==> rec == filters[user]
    ensures user !in filters ==> rec == NoFilters
    ensures user !in filters ==> SymbolCheckApplies(rec) && rec.minVolume.Absent?
  {
    if user in filters then filters[user] else NoFilters
  }

  /** `filters.get("token_type", "SOL")`: the stored token type, defaulting to
      SOL; it reads "SOL" exactly when the symbol check is in force. */
  function TokenTypeOf(rec: FilterRecord): (t: string)
    ensures rec.tokenType.Present? ==> t == rec.tokenType.value
    ensures t == DefaultTokenType <==> SymbolCheckApplies(rec)
  {
    match rec.tokenType
    case Present(name) => name
    case Absent => DefaultTokenType
  }

  /** The admission rule stated positively: a pool is kept when its symbol
      mentions SOL (if the symbol check is in force) and its TVL reaches the
      minimum (if one is set). */
  ghost predicate Admits(rec: FilterRecord, pool: Pool) {
    && (SymbolCheckApplies(rec) ==> HasSubstring(pool.symbol, "SOL"))
    && (rec.minVolume.Present? ==> pool.tvlUsd >= rec.minVolume.value)
  }

  /** The loop of `filter_pools` over a record already looked up: each pool is
      skipped by the first `continue` guard it trips, otherwise appended. The
      duration key is looked at by `filter_pools` but has no effect, so it is not
      read here. */
  function FilterWith(pools: seq<Pool>, rec: FilterRecord): (r: seq<Pool>)
    ensures |r| <= |pools|
    ensures forall i :: 0 <= i < |r| ==> Admits(rec, r[i])
    ensures forall p :: multiset(r)[p] == if Admits(rec, p) then multiset(pools)[p] else 0
    decreases |pools|
  {
    if |pools| == 0 then []
    else
      var kept := FilterWith(pools[..|pools| - 1], rec);
      var pool := pools[|pools| - 1];
      assert pools == pools[..|pools| - 1] + [pool];
      if TokenTypeOf(rec) == DefaultTokenType && !Contains(pool.symbol, "SOL") then kept
      else if rec.minVolume.Present? && pool.tvlUsd < rec.minVolume.value then kept
      else kept + [pool]
  }

  /** `filter_pools(pools, user_id)`. */
  function FilterPools(pools: seq<Pool>, filters: UserFilters, user: UserId): (r: seq<Pool>)
    ensures forall p :: p in r <==> p in pools && Admits(FiltersOf(filters, user), p)
    ensures user !in filters ==> forall i :: 0 <= i < |r| ==> HasSubstring(r[i].symbol, "SOL")
    ensures user in filters && filters[user].minVolume.Present? ==>
      forall i :: 0 <= i < |r| ==> r[i].tvlUsd >= filters[user].minVolume.value
  {
    var r := FilterWith(pools, FiltersOf(filters, user));
    assert forall p :: p in r <==> multiset(r)[p] > 0;
    r
  }

  /** `idx` embeds `sub` into `s` in order: strictly increasing positions of `s`
      holding the elements of `sub`. */
  ghost predicate Embeds<T>(sub: seq<T>, s: seq<T>, idx: seq<int>) {
    && |idx| == |sub|
    && (forall k :: 0 <= k < |idx| ==> 0 <= idx[k] < |s| && s[idx[k]] == sub[k])
    && (forall j, k :: 0 <= j < k < |idx| ==> idx[j] < idx[k])
  }

  /** The filtered list is a subsequence of the input: kept pools keep their
      relative order. */
  lemma {:induction false} FilterIsSubsequence(pools: seq<Pool>, rec: FilterRecord)
    returns (idx: seq<int>)
    ensures Embeds(FilterWith(pools, rec), pools, idx)
    ensures forall k :: 0 <= k < |idx| ==> Admits(rec, pools[idx[k]])
    decreases |pools|
  {
    if |pools| == 0 {
      idx := [];
    } else {
      var init := pools[..|pools| - 1];
      var rest := FilterIsSubsequence(init, rec);
      if FilterWith(pools, rec) == FilterWith(init, rec) {
        idx := rest;
      } else {
        idx := rest + [|pools| - 1];
      }
    }
  }

  /** Some order-preserving embedding of the filtered list into the input exists. */
  lemma FilterIsOrderedSublist(pools: seq<Pool>, rec: FilterRecord)
    ensures exists idx :: Embeds(FilterWith(pools, rec), pools, idx)
  {
    var idx := FilterIsSubsequence(pools, rec);
  }

  /** The duration key never changes the result. */
  lemma {:induction false} DurationIsIgnored(pools: seq<Pool>, rec: FilterRecord, d: Entry<string>)
    ensures FilterWith(pools, rec.(duration := d)) == FilterWith(pools, rec)
    decreases |pools|
  {
    if |pools| > 0 {
      DurationIsIgnored(pools[..|pools| - 1], rec, d);
    }
  }

  /** With a token type other than "SOL" the symbol is never looked at: every
      such token type filters identically. */
  lemma {:induction false} OtherTokenTypesAgree(pools: seq<Pool>, rec: FilterRecord, t: string)
    requires rec.tokenType.Present? && rec.tokenType.value != "SOL"
    requires t != "SOL"
    ensures FilterWith(pools, rec.(tokenType := Present(t))) == FilterWith(pools, rec)
    decreases |pools|
  {
    if |pools| > 0 {
      OtherTokenTypesAgree(pools[..|pools| - 1], rec, t);
    }
  }

  /** With a token type other than "SOL" and no minimum volume, nothing is dropped. */
  lemma {:induction false} OtherTokenTypeWithoutMinimumKeepsAll(pools: seq<Pool>, rec: FilterRecord)
    requires rec.tokenType.Present? && rec.tokenType.value != "SOL"
    requires rec.minVolume.Absent?
    ensures FilterWith(pools, rec) == pools
    decreases |pools|
  {
    if |pools| > 0 {
      OtherTokenTypeWithoutMinimumKeepsAll(pools[..|pools| - 1], rec);
      assert pools == pools[..|pools| - 1] + [pools[|pools| - 1]];
    }
  }

  /** The same pools with their TVL replaced. */
  function WithTvls(pools: seq<Pool>, tvls: seq<real>): seq<Pool>
    requires |tvls| == |pools|
  {
    seq(|pools|, i requires 0 <= i < |pools| => pools[i].(tvlUsd := tvls[i]))
  }

  /** The symbols of a list of pools, in order. */
  function Symbols(pools: seq<Pool>): seq<string>
  {
    seq(|pools|, i requires 0 <= i < |pools| => pools[i].symbol)
  }

  /** Without a minimum volume the TVL is never checked: changing every pool's
      TVL leaves the kept symbols, in order, as they were. */
  lemma {:induction false} NoMinimumIgnoresTvl(pools: seq<Pool>, tvls: seq<real>, rec: FilterRecord)
    requires |tvls| == |pools|
    requires rec.minVolume.Absent?
    ensures Symbols(FilterWith(WithTvls(pools, tvls), rec)) == Symbols(FilterWith(pools, rec))
    decreases |pools|
  {
    if |pools| > 0 {
      var n := |pools| - 1;
      var moved := WithTvls(pools, tvls);
      assert moved[..n] == WithTvls(pools[..n], tvls[..n]);
      NoMinimumIgnoresTvl(pools[..n], tvls[..n], rec);
      var a := FilterWith(moved[..n], rec);
      var b := FilterWith(pools[..n], rec);
      assert moved[n].symbol == pools[n].symbol;
      SymbolsAppend(a, moved[n]);
      SymbolsAppend(b, pools[n]);
    }
  }

  lemma SymbolsAppend(pools: seq<Pool>, p: Pool)
    ensures Symbols(pools + [p]) == Symbols(pools) + [p.symbol]
  {
  }
}
