/** The single-listing detail resolver: validate the id, read the listing's
    nine-field tuple from the marketplace contract, fetch its metadata
    document, and build one record, or throw one of fixed messages. The
    contract read and the metadata fetch are outcome inputs. */
module DetailResolver {
  import opened Common
  import opened NumberSyntax

  /** The contract's `getListingDetails` result, by position: seller, fid,
      price (6 decimals), remaining supply, metadata pointer, active flag,
      total sales, preferred token, preferred chain. */
  type ContractTuple = (string, int, int, int, string, bool, int, string, int)

  datatype ListingDetails = ListingDetails(
    seller: string,
    fid: int,
    price: string,
    remainingSupply: int,
    metadata: MetadataDoc,
    isActive: bool,
    totalSales: int,
    preferredToken: string,
    preferredChain: int)

  /** The external calls a resolution makes, in order. */
  datatype Call = ReadListing(listingId: string) | FetchIpfs(url: string)

  datatype DetailsRun = DetailsRun(calls: seq<Call>, result: Outcome<ListingDetails>)

  const InvalidIdMessage: string := "Invalid listing ID"
  const DetailsFailurePrefix: string := "Failed to fetch listing details: "
  const DetailsFailureMessage: string := "Failed to fetch listing details"
  const IpfsFailureMessage: string := "Failed to fetch metadata from IPFS"

  /** `listingId && !isNaN(Number(listingId))`. */
  predicate PassesIdCheck(listingId: string) {
    listingId != "" && !NumberIsNaN(listingId)
  }

  /** The `SyntaxError` that `BigInt` throws for a non-integer numeral (the
      message is the V8 engine's wording). */
  function BigIntSyntaxError(listingId: string): Thrown {
    ErrorValue("Cannot convert " + listingId + " to a BigInt")
  }

  /** `fetchMetadataFromIpfs`: the payload as received, unvalidated; any
      failure becomes one fixed error. */
  function FetchMetadataFromIpfs(reply: Outcome<MetadataDoc>): (r: Outcome<MetadataDoc>)
    ensures reply.Ok? ==> r == reply
    ensures reply.Err? ==> r == Err(ErrorValue(IpfsFailureMessage))
  {
    match reply
    case Ok(doc) => Ok(doc)
    case Err(_) => Err(ErrorValue(IpfsFailureMessage))
  }

  /** The resolver's `catch`: an `Error` is rethrown with its message after
      the fixed prefix, anything else as the bare fixed message. */
  function WrapFailure(t: Thrown): (w: Thrown)
    ensures w.ErrorValue? && |w.message| >= |DetailsFailureMessage|
    ensures w.message[..|DetailsFailureMessage|] == DetailsFailureMessage
    ensures t.ErrorValue? ==> w.message == DetailsFailurePrefix + t.message
    ensures t.OtherValue? ==> w.message == DetailsFailureMessage
  {
    match t
    case ErrorValue(m) => ErrorValue(DetailsFailurePrefix + m)
    case OtherValue => ErrorValue(DetailsFailureMessage)
  }

  /** The record built from the tuple; `formatPrice` is `formatUnits(·, 6)`. */
  function ToDetails(t: ContractTuple, metadata: MetadataDoc, formatPrice: int -> string): ListingDetails {
    ListingDetails(t.0, t.1, formatPrice(t.2), t.3, metadata, t.5, t.6, t.7, t.8)
  }

  /** `getListingDetails(listingId)` given what the contract read and the
      metadata fetch settle to. */
  function GetListingDetails(listingId: string, read: Outcome<ContractTuple>, ipfs: Outcome<MetadataDoc>,
                             formatPrice: int -> string): (run: DetailsRun)
    // the id check runs before any call, and its error is not wrapped
    ensures !PassesIdCheck(listingId) ==> run == DetailsRun([], Err(ErrorValue(InvalidIdMessage)))
    // past the check, every failure carries the wrapper's fixed message
    ensures PassesIdCheck(listingId) && run.result.Err? ==>
              run.result.thrown.ErrorValue? &&
              |run.result.thrown.message| >= |DetailsFailureMessage| &&
              run.result.thrown.message[..|DetailsFailureMessage|] == DetailsFailureMessage
    // the contract is read exactly when the id is an integer numeral
    ensures PassesIdCheck(listingId) && !BigIntAccepts(listingId) ==>
              run == DetailsRun([], Err(WrapFailure(BigIntSyntaxError(listingId))))
    ensures PassesIdCheck(listingId) && BigIntAccepts(listingId) ==>
              |run.calls| >= 1 && run.calls[0] == ReadListing(listingId)
    // metadata is fetched only after the read returns, with tuple element 4
    ensures read.Err? ==> |run.calls| <= 1
    ensures PassesIdCheck(listingId) && BigIntAccepts(listingId) && read.Err? ==>
              run.calls == [ReadListing(listingId)]
    ensures PassesIdCheck(listingId) && BigIntAccepts(listingId) && read.Ok? ==>
              run.calls == [ReadListing(listingId), FetchIpfs(MetadataUrl(read.value.4))]
    ensures |run.calls| == 2 ==> read.Ok? && run.calls[1] == FetchIpfs(MetadataUrl(read.value.4))
    ensures run.result.Ok? <==> PassesIdCheck(listingId) && BigIntAccepts(listingId) && read.Ok? && ipfs.Ok?
    ensures run.result.Ok? ==>
              |run.calls| == 2 &&
              run.result.value == ToDetails(read.value, ipfs.value, formatPrice)
  {
    if !PassesIdCheck(listingId) then
      DetailsRun([], Err(ErrorValue(InvalidIdMessage)))
    else if !BigIntAccepts(listingId) then
      DetailsRun([], Err(WrapFailure(BigIntSyntaxError(listingId))))
    else
      match read
      case Err(t) => DetailsRun([ReadListing(listingId)], Err(WrapFailure(t)))
      case Ok(tuple) =>
        var calls := [ReadListing(listingId), FetchIpfs(MetadataUrl(tuple.4))];
        match FetchMetadataFromIpfs(ipfs)
        case Err(t) => DetailsRun(calls, Err(WrapFailure(t)))
        case Ok(doc) => DetailsRun(calls, Ok(ToDetails(tuple, doc, formatPrice)))
  }

  /** The record takes each field from its tuple position, and the metadata
      document exactly as fetched. */
  lemma PositionalMapping(listingId: string, read: Outcome<ContractTuple>, ipfs: Outcome<MetadataDoc>,
                          formatPrice: int -> string)
    requires GetListingDetails(listingId, read, ipfs, formatPrice).result.Ok?
    ensures var d, t := GetListingDetails(listingId, read, ipfs, formatPrice).result.value, read.value;
            && d.seller == t.0 && d.fid == t.1 && d.price == formatPrice(t.2)
            && d.remainingSupply == t.3 && d.metadata == ipfs.value && d.isActive == t.5
            && d.totalSales == t.6 && d.preferredToken == t.7 && d.preferredChain == t.8
  {
  }

  /** "Invalid listing ID" is reported exactly when the id check fails; no
      later failure can produce it. */
  lemma InvalidIdMessageOnlyFromCheck(listingId: string, read: Outcome<ContractTuple>,
                                      ipfs: Outcome<MetadataDoc>, formatPrice: int -> string)
    ensures GetListingDetails(listingId, read, ipfs, formatPrice).result == Err(ErrorValue(InvalidIdMessage))
            <==> !PassesIdCheck(listingId)
  {
    var run := GetListingDetails(listingId, read, ipfs, formatPrice);
    if PassesIdCheck(listingId) && run.result.Err? {
      var m := run.result.thrown.message;
      assert m[..|DetailsFailureMessage|] == DetailsFailureMessage;
    }
  }

  /** A metadata failure for the requested listing is surfaced, wrapped
      twice, with no fallback record. */
  lemma IpfsFailureSurfaces(listingId: string, tuple: ContractTuple, failure: Thrown, formatPrice: int -> string)
    requires PassesIdCheck(listingId) && BigIntAccepts(listingId)
    ensures GetListingDetails(listingId, Ok(tuple), Err(failure), formatPrice).result
            == Err(ErrorValue(DetailsFailurePrefix + IpfsFailureMessage))
    ensures GetListingDetails(listingId, Ok(tuple), Err(failure), formatPrice).calls
            == [ReadListing(listingId), FetchIpfs(MetadataUrl(tuple.4))]
  {
  }

  /** An id that passes the check and that `BigInt` accepts is read from
      the contract first; a failed read is rethrown through the wrapper,
      and metadata is never fetched. */
  lemma ReachesContract(listingId: string, read: Outcome<ContractTuple>, ipfs: Outcome<MetadataDoc>,
                        formatPrice: int -> string)
    requires PassesIdCheck(listingId) && BigIntAccepts(listingId)
    ensures GetListingDetails(listingId, read, ipfs, formatPrice).calls[0] == ReadListing(listingId)
    ensures read.Err? ==>
              GetListingDetails(listingId, read, ipfs, formatPrice)
              == DetailsRun([ReadListing(listingId)], Err(WrapFailure(read.thrown)))
  {
  }

  /** A negative integer id such as `"-1"` passes the id check and `BigInt`
      accepts it, so it reaches the contract read (`ReachesContract`) and
      its failure, whatever it is, comes back wrapped. */
  lemma NegativeIdReachesContract(digits: string)
    requires Digits(digits)
    ensures PassesIdCheck("-" + digits) && BigIntAccepts("-" + digits)
  {
    NegativeNumeralIsInteger(digits);
  }

  /** A fractional id such as `"1.5"` passes the id check, then `BigInt`
      throws inside the `try`: the caller sees the wrapped conversion error,
      and nothing is read. */
  lemma FractionFailsInsideTry(whole: string, fraction: string, read: Outcome<ContractTuple>,
                               ipfs: Outcome<MetadataDoc>, formatPrice: int -> string)
    requires Digits(whole) && Digits(fraction)
    ensures PassesIdCheck(whole + "." + fraction)
    ensures GetListingDetails(whole + "." + fraction, read, ipfs, formatPrice)
            == DetailsRun([], Err(WrapFailure(BigIntSyntaxError(whole + "." + fraction))))
  {
    FractionIsNumberNotInteger(whole, fraction);
    RefusedByBigInt(whole + "." + fraction, read, ipfs, formatPrice);
  }

  lemma RefusedByBigInt(id: string, read: Outcome<ContractTuple>, ipfs: Outcome<MetadataDoc>, formatPrice: int -> string)
    requires id != [] && !NumberIsNaN(id) && !BigIntAccepts(id)
    ensures PassesIdCheck(id)
    ensures GetListingDetails(id, read, ipfs, formatPrice) == DetailsRun([], Err(WrapFailure(BigIntSyntaxError(id))))
  {
  }

  /** The conversion error reaches the caller as the fixed prefix followed
      by the engine's message naming the id. */
  lemma ConversionMessage(id: string)
    ensures WrapFailure(BigIntSyntaxError(id)).message == DetailsFailurePrefix + "Cannot convert " + id + " to a BigInt"
  {
    assert DetailsFailurePrefix + ("Cannot convert " + id + " to a BigInt")
           == DetailsFailurePrefix + "Cannot convert " + id + " to a BigInt";
  }

  /** The empty id and a non-numeral are refused before any call. */
  lemma NonNumeralsRefused(read: Outcome<ContractTuple>, ipfs: Outcome<MetadataDoc>, formatPrice: int -> string)
    ensures GetListingDetails("", read, ipfs, formatPrice) == DetailsRun([], Err(ErrorValue(InvalidIdMessage)))
    ensures GetListingDetails("abc", read, ipfs, formatPrice) == DetailsRun([], Err(ErrorValue(InvalidIdMessage)))
  {
    WordIsNaN();
  }
}
