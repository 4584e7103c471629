/**
 Account and block query options: written into the query of an outgoing request (common/options.go) and
 read from the query of an incoming one (api/groups/urlParams.go). A query maps names to values; its
 percent-encoding is not part of this model.
 */
module QueryOptions {
  import opened Basics
  import opened Numerals

  datatype AccountQueryOptions = AccountQueryOptions(
    onFinalBlock: bool,
    onStartOfEpoch: Option<Uint32>,
    forcedShardId: Option<Uint32>,
    blockNonce: Option<Uint64>,
    blockHash: seq<Byte>,
    blockRootHash: seq<Byte>,
    hintEpoch: Option<Uint32>,
    withKeys: bool)

  datatype BlockQueryOptions = BlockQueryOptions(withTransactions: bool, withLogs: bool, forHyperblock: bool)

  /** The parameters of the two kinds of queries, and the names they go by. */
  datatype Param =
    | WithTransactions | WithLogs | ForHyperblock | OnFinalBlock | OnStartOfEpoch
    | BlockNonce | BlockHash | BlockRootHash | HintEpoch | ForcedShardId | WithKeys

  function NameOf(p: Param): string {
    match p
    case WithTransactions => "withTxs"
    case WithLogs => "withLogs"
    case ForHyperblock => "forHyperblock"
    case OnFinalBlock => "onFinalBlock"
    case OnStartOfEpoch => "onStartOfEpoch"
    case BlockNonce => "blockNonce"
    case BlockHash => "blockHash"
    case BlockRootHash => "blockRootHash"
    case HintEpoch => "hintEpoch"
    case ForcedShardId => "forced-shard-id"
    case WithKeys => "withKeys"
  }

  lemma NamesDiffer(p: Param, p': Param)
    requires NameOf(p) == NameOf(p')
    ensures p == p'
  {
    assert NameOf(WithLogs)[4] == 'L' && NameOf(WithKeys)[4] == 'K';
    assert NameOf(BlockNonce)[0] == 'b' && NameOf(BlockHash)[0] == 'b';
  }

  /** A query, by the names of its parameters. */
  type Query = map<string, string>

  const SYSTEM_ACCOUNT := "erd1lllllllllllllllllllllllllllllllllllllllllllllllllllsckry7t"

  datatype Parsed<+T> = Ok(value: T) | Err {
    predicate IsFailure() { Err? }
    function PropagateFailure<U>(): Parsed<U>
      requires Err?
    {
      Err
    }
    function Extract(): T
      requires Ok?
    {
      value
    }
  }

  // ----- Reading -----

  function Get(q: Query, p: Param): string {
    if NameOf(p) in q then q[NameOf(p)] else ""
  }

  /** `strconv.ParseBool`; an absent parameter is false. */
  function ParseBoolParam(q: Query, p: Param): Parsed<bool> {
    var param := Get(q, p);
    if param in ["", "0", "f", "F", "false", "FALSE", "False"] then Ok(false)
    else if param in ["1", "t", "T", "true", "TRUE", "True"] then Ok(true)
    else Err
  }

  function ParseUintParam(q: Query, p: Param, limit: nat): (r: Parsed<Option<nat>>)
    ensures r.Ok? && r.value.Some? ==> r.value.value < limit
  {
    var param := Get(q, p);
    if param == "" then Ok(None)
    else
      match ParseUint(param, limit)
      case None => Err
      case Some(v) => Ok(Some(v))
  }

  function ParseUint32Param(q: Query, p: Param): Parsed<Option<Uint32>> {
    var v :- ParseUintParam(q, p, TWO_32);
    Ok(if v.Some? then Some(v.value) else None)
  }

  function ParseUint64Param(q: Query, p: Param): Parsed<Option<Uint64>> {
    var v :- ParseUintParam(q, p, TWO_64);
    Ok(if v.Some? then Some(v.value) else None)
  }

  function ParseHexParam(q: Query, p: Param): Parsed<seq<Byte>> {
    var param := Get(q, p);
    if param == "" then Ok([])
    else
      match HexDecode(param)
      case None => Err
      case Some(bytes) => Ok(bytes)
  }

  function ParseAccountQueryOptions(q: Query, address: string): Parsed<AccountQueryOptions> {
    var onFinalBlock :- ParseBoolParam(q, OnFinalBlock);
    var onStartOfEpoch :- ParseUint32Param(q, OnStartOfEpoch);
    var blockNonce :- ParseUint64Param(q, BlockNonce);
    var blockHash :- ParseHexParam(q, BlockHash);
    var blockRootHash :- ParseHexParam(q, BlockRootHash);
    var hintEpoch :- ParseUint32Param(q, HintEpoch);
    var shardId :- ParseUint32Param(q, ForcedShardId);
    var withKeys :- ParseBoolParam(q, WithKeys);
    if shardId.Some? && address != SYSTEM_ACCOUNT then Err
    else
      Ok(AccountQueryOptions(onFinalBlock, onStartOfEpoch, shardId, blockNonce, blockHash, blockRootHash,
                             hintEpoch, withKeys))
  }

  function ParseBlockQueryOptions(q: Query): Parsed<BlockQueryOptions> {
    var withTxs :- ParseBoolParam(q, WithTransactions);
    var withLogs :- ParseBoolParam(q, WithLogs);
    var forHyperblock :- ParseBoolParam(q, ForHyperblock);
    Ok(BlockQueryOptions(withTxs, withLogs, forHyperblock))
  }

  predicate AreHistoricalCoordinatesSet(o: AccountQueryOptions) {
    o.blockNonce.Some? || o.onStartOfEpoch.Some? || o.hintEpoch.Some? || |o.blockHash| > 0 || |o.blockRootHash| > 0
  }

  /** `AvailabilityForAccountQueryOptions`. */
  function AvailabilityFor(o: AccountQueryOptions): Availability {
    if AreHistoricalCoordinatesSet(o) then All else Recent
  }

  /** Historical data is needed exactly when a block is named, by nonce, epoch, hash or root hash, or hinted at. */
  lemma HistoricalExactly(o: AccountQueryOptions)
    ensures AvailabilityFor(o) == All <==>
            || o.blockNonce != None || o.onStartOfEpoch != None || o.hintEpoch != None
            || o.blockHash != [] || o.blockRootHash != []
  {
  }

  /** A shard can be forced for the system account only. */
  lemma ForcedShardInFull(q: Query, address: string)
    requires "forced-shard-id" in q && q["forced-shard-id"] != ""
    requires address != "erd1lllllllllllllllllllllllllllllllllllllllllllllllllllsckry7t"
    ensures ParseAccountQueryOptions(q, address) == Err
  {
    var shardId := ParseUint32Param(q, ForcedShardId);
    assert shardId.Ok? ==> shardId.value.Some?;
  }

  /** The names under which options are read, and what counts as true and false. */
  lemma BlockOptionsInFull(q: Query)
    requires "withTxs" in q && "withLogs" in q && "forHyperblock" in q
    ensures var yes, no := ["1", "t", "T", "true", "TRUE", "True"], ["", "0", "f", "F", "false", "FALSE", "False"];
            && (ParseBlockQueryOptions(q).Ok? <==>
                  && q["withTxs"] in yes + no && q["withLogs"] in yes + no && q["forHyperblock"] in yes + no)
            && (ParseBlockQueryOptions(q).Ok? ==>
                  ParseBlockQueryOptions(q).value ==
                  BlockQueryOptions(q["withTxs"] in yes, q["withLogs"] in yes, q["forHyperblock"] in yes))
  {
  }

  // ----- Writing, and the way back -----

  function WrittenUint32(v: Option<Uint32>): string {
    if v.Some? then Decimal(v.value) else ""
  }

  function WrittenUint64(v: Option<Uint64>): string {
    if v.Some? then Decimal(v.value) else ""
  }

  lemma ReadUint32(q: Query, p: Param, v: Option<Uint32>)
    requires Get(q, p) == WrittenUint32(v)
    ensures ParseUint32Param(q, p) == Ok(v)
  {
    if v.Some? {
      ParseUintDecimal(v.value, TWO_32);
    }
  }

  lemma ReadUint64(q: Query, p: Param, v: Option<Uint64>)
    requires Get(q, p) == WrittenUint64(v)
    ensures ParseUint64Param(q, p) == Ok(v)
  {
    if v.Some? {
      ParseUintDecimal(v.value, TWO_64);
    }
  }

  lemma ReadHex(q: Query, p: Param, bytes: seq<Byte>)
    requires Get(q, p) == HexEncode(bytes)
    ensures ParseHexParam(q, p) == Ok(bytes)
  {
    HexRoundTrip(bytes);
  }

  function WrittenBool(b: bool): string {
    if b then "true" else ""
  }

  lemma ReadBool(q: Query, p: Param, b: bool)
    requires Get(q, p) == WrittenBool(b)
    ensures ParseBoolParam(q, p) == Ok(b)
  {
    assert "true" in ["1", "t", "T", "true", "TRUE", "True"];
    assert "true" !in ["", "0", "f", "F", "false", "FALSE", "False"];
  }

  /** The values of all parameters of a query; absent ones are empty. */
  datatype Values = Values(
    withTransactions: string, withLogs: string, forHyperblock: string, onFinalBlock: string, onStartOfEpoch: string,
    blockNonce: string, blockHash: string, blockRootHash: string, hintEpoch: string, forcedShardId: string,
    withKeys: string)

  const NOTHING := Values("", "", "", "", "", "", "", "", "", "", "")

  function ValuesOf(q: Query): Values {
    Values(Get(q, WithTransactions), Get(q, WithLogs), Get(q, ForHyperblock), Get(q, OnFinalBlock),
           Get(q, OnStartOfEpoch), Get(q, BlockNonce), Get(q, BlockHash), Get(q, BlockRootHash),
           Get(q, HintEpoch), Get(q, ForcedShardId), Get(q, WithKeys))
  }

  function With(values: Values, p: Param, v: string): Values {
    match p
    case WithTransactions => values.(withTransactions := v)
    case WithLogs => values.(withLogs := v)
    case ForHyperblock => values.(forHyperblock := v)
    case OnFinalBlock => values.(onFinalBlock := v)
    case OnStartOfEpoch => values.(onStartOfEpoch := v)
    case BlockNonce => values.(blockNonce := v)
    case BlockHash => values.(blockHash := v)
    case BlockRootHash => values.(blockRootHash := v)
    case HintEpoch => values.(hintEpoch := v)
    case ForcedShardId => values.(forcedShardId := v)
    case WithKeys => values.(withKeys := v)
  }

  /** What a query must say for the options to be read back from it. */
  function Written(o: AccountQueryOptions): Values {
    WrittenHashes(o).(hintEpoch := WrittenUint32(o.hintEpoch), withKeys := WrittenBool(o.withKeys))
  }

  /** The part that names a block, by its position or by its hashes. */
  function WrittenHashes(o: AccountQueryOptions): Values {
    WrittenBlock(o).(blockHash := HexEncode(o.blockHash), blockRootHash := HexEncode(o.blockRootHash))
  }

  function WrittenBlock(o: AccountQueryOptions): Values {
    NOTHING.(onFinalBlock := WrittenBool(o.onFinalBlock),
             onStartOfEpoch := WrittenUint32(o.onStartOfEpoch),
             blockNonce := WrittenUint64(o.blockNonce))
  }

  lemma ReadAccountOptions(q: Query, o: AccountQueryOptions, address: string)
    requires ValuesOf(q) == Written(o)
    ensures ParseAccountQueryOptions(q, address) == Ok(o.(forcedShardId := None))
  {
    ReadBool(q, OnFinalBlock, o.onFinalBlock);
    ReadUint32(q, OnStartOfEpoch, o.onStartOfEpoch);
    ReadUint64(q, BlockNonce, o.blockNonce);
    ReadHex(q, BlockHash, o.blockHash);
    ReadHex(q, BlockRootHash, o.blockRootHash);
    ReadUint32(q, HintEpoch, o.hintEpoch);
    ReadUint32(q, ForcedShardId, None);
    ReadBool(q, WithKeys, o.withKeys);
  }

  /** Setting one parameter leaves all others alone. */
  lemma GetAfterSet(q: Query, p: Param, v: string, p': Param)
    ensures Get(q[NameOf(p) := v], p') == if p' == p then v else Get(q, p')
  {
    if NameOf(p) == NameOf(p') {
      NamesDiffer(p, p');
    }
  }

  lemma ValuesAfterSet(q: Query, p: Param, v: string)
    ensures ValuesOf(q[NameOf(p) := v]) == With(ValuesOf(q), p, v)
  {
    forall p' ensures Get(q[NameOf(p) := v], p') == if p' == p then v else Get(q, p') {
      GetAfterSet(q, p, v, p');
    }
  }

  /** `query.Set`, if there is something to set. */
  method SetIf(q: Query, condition: bool, p: Param, v: string) returns (q': Query)
    ensures ValuesOf(q') == if condition then With(ValuesOf(q), p, v) else ValuesOf(q)
  {
    q' := q;
    if condition {
      ValuesAfterSet(q, p, v);
      q' := q[NameOf(p) := v];
    }
  }

  method SetBlockParams(o: AccountQueryOptions) returns (q: Query)
    ensures ValuesOf(q) == WrittenBlock(o)
  {
    q := map[];
    q := SetIf(q, o.onFinalBlock, OnFinalBlock, "true");
    q := SetIf(q, o.onStartOfEpoch.Some?, OnStartOfEpoch, WrittenUint32(o.onStartOfEpoch));
    q := SetIf(q, o.blockNonce.Some?, BlockNonce, WrittenUint64(o.blockNonce));
  }

  method SetHashParams(o: AccountQueryOptions) returns (q: Query)
    ensures ValuesOf(q) == WrittenHashes(o)
  {
    q := SetBlockParams(o);
    q := SetIf(q, |o.blockHash| > 0, BlockHash, HexEncode(o.blockHash));
    q := SetIf(q, |o.blockRootHash| > 0, BlockRootHash, HexEncode(o.blockRootHash));
  }

  method SetAccountParams(o: AccountQueryOptions) returns (q: Query)
    ensures ValuesOf(q) == Written(o)
  {
    q := SetHashParams(o);
    q := SetIf(q, o.hintEpoch.Some?, HintEpoch, WrittenUint32(o.hintEpoch));
    q := SetIf(q, o.withKeys, WithKeys, "true");
  }

  lemma SaidInFull(q: Query)
    ensures var said := (name: string) => if name in q then q[name] else "";
            && said("onFinalBlock") == ValuesOf(q).onFinalBlock && said("onStartOfEpoch") == ValuesOf(q).onStartOfEpoch
            && said("blockNonce") == ValuesOf(q).blockNonce && said("blockHash") == ValuesOf(q).blockHash
            && said("blockRootHash") == ValuesOf(q).blockRootHash && said("hintEpoch") == ValuesOf(q).hintEpoch
            && said("withKeys") == ValuesOf(q).withKeys && said("forced-shard-id") == ValuesOf(q).forcedShardId
  {
  }

  /** Reading back what was written gives the options again, but for the forced shard, which is never
      written; the data they need is available from the same observers. */
  method BuildAccountQuery(o: AccountQueryOptions) returns (q: Query)
    ensures forall address ::
      ParseAccountQueryOptions(q, address) == Ok(o.(forcedShardId := None))
    ensures AvailabilityFor(o.(forcedShardId := None)) == AvailabilityFor(o)
    // What the query says, by the names of its parameters.
    ensures var said := (name: string) => if name in q then q[name] else "";
            && said("onFinalBlock") == (if o.onFinalBlock then "true" else "")
            && said("onStartOfEpoch") == (if o.onStartOfEpoch.Some? then Decimal(o.onStartOfEpoch.value) else "")
            && said("blockNonce") == (if o.blockNonce.Some? then Decimal(o.blockNonce.value) else "")
            && said("blockHash") == HexEncode(o.blockHash) && said("blockRootHash") == HexEncode(o.blockRootHash)
            && said("hintEpoch") == (if o.hintEpoch.Some? then Decimal(o.hintEpoch.value) else "")
            && said("withKeys") == (if o.withKeys then "true" else "")
            && said("forced-shard-id") == ""
  {
    q := SetAccountParams(o);
    SaidInFull(q);
    forall address ensures ParseAccountQueryOptions(q, address) == Ok(o.(forcedShardId := None)) {
      ReadAccountOptions(q, o, address);
    }
  }

  method BuildBlockQuery(o: BlockQueryOptions) returns (q: Query)
    ensures ParseBlockQueryOptions(q) == Ok(o)
  {
    q := map[];
    q := SetIf(q, o.withTransactions, WithTransactions, "true");
    q := SetIf(q, o.withLogs, WithLogs, "true");
    q := SetIf(q, o.forHyperblock, ForHyperblock, "true");
    ReadBool(q, WithTransactions, o.withTransactions);
    ReadBool(q, WithLogs, o.withLogs);
    ReadBool(q, ForHyperblock, o.forHyperblock);
  }
}
