/** The single-listing page: it resolves the listing named by the route,
    reserves it through the payment-link service, lets the reservation lapse
    after five minutes, and chooses what to render. Time is an explicit
    clock in milliseconds that only `Tick` advances. */
module ListingPage {
  import opened Common
  import opened DetailResolver
  import opened Frames
  import opened NumberSyntax

  const NoIdMessage: string := "No listing ID provided"
  const FetchFailedMessage: string := "Failed to fetch listing"
  const PaymentLinkEndpoint: string := "https://farcaster.anky.bot/farbarter/generate-payment-link/"
  /** `5 * 60 * 1000`: how long a reservation is shown. */
  const ReservationMillis: nat := 300000

  /** The payment service's JSON body as read: `data.url` when it is an
      object, and its `paymentLink` when present. A body that is `null`, or
      lacks `url`, is `PaymentReply(None)`. */
  datatype PaymentUrl = PaymentUrl(paymentLink: Option<string>)
  datatype PaymentReply = PaymentReply(url: Option<PaymentUrl>)

  /** The action area under an available listing's details. */
  datatype PageAction = NotAvailable | PayLink(href: string) | BuyOrBack

  /** What the page renders. `RenderFailure` is the render throwing: the
      embed reads `imageUrl` off a metadata document that is `null`. */
  datatype PageView = ErrorView(message: string) | LoadingView | RenderFailure
                    | DetailView(embed: FrameEmbed, action: PageAction)

  /** `!listingId`: the route parameter is absent or empty. */
  predicate MissingId(listingId: Option<string>) {
    listingId.None? || listingId.value == ""
  }

  /** `${listingId}`: an absent parameter is written as "undefined". */
  function IdText(listingId: Option<string>): string {
    if listingId.Some? then listingId.value else "undefined"
  }

  /** The message the effect stores for a thrown value. */
  function ErrorText(t: Thrown): (m: string)
    ensures t.ErrorValue? ==> m == t.message
    ensures t.OtherValue? ==> m == FetchFailedMessage
  {
    if t.ErrorValue? then t.message else FetchFailedMessage
  }

  /** `frameEmbed`: the buy button's embed for a resolved listing. */
  function EmbedFor(origin: string, idText: string, d: ListingDetails): (e: FrameEmbed)
    requires d.metadata.Doc?
    ensures e.version == FrameVersion && e.button.action.actionType == LaunchFrame
    ensures e.imageUrl == d.metadata.imageUrl && e.button.action.splashImageUrl == d.metadata.imageUrl
    ensures e.button.title == "Buy for " + d.price + " USDC"
    ensures e.button.action.url == origin + "/listings/" + idText + "/buy"
    ensures e.button.action.name == "Farbarter" && e.button.action.splashBackgroundColor == "#000000"
  {
    FrameEmbed(FrameVersion, d.metadata.imageUrl,
      FrameButton("Buy for " + d.price + " USDC",
        LaunchAction(LaunchFrame, "Farbarter", origin + "/listings/" + idText + "/buy",
                     d.metadata.imageUrl, "#000000")))
  }

  /** The embed has the declared frame type exactly when the metadata
      document carries an image URL. */
  lemma EmbedWellTypedIffImage(origin: string, idText: string, d: ListingDetails)
    requires d.metadata.Doc?
    ensures WellTyped(EmbedFor(origin, idText, d)) <==> d.metadata.imageUrl.Some?
  {
  }

  /** Under one origin, the launch URL names the listing: distinct ids give
      distinct URLs. */
  lemma EmbedUrlNamesListing(origin: string, a: string, b: string, d: ListingDetails, d': ListingDetails)
    requires d.metadata.Doc? && d'.metadata.Doc?
    requires EmbedFor(origin, a, d).button.action.url == EmbedFor(origin, b, d').button.action.url
    ensures a == b
  {
    var head := origin + "/listings/";
    var u, v := head + a + "/buy", head + b + "/buy";
    assert |a| == |b|;
    assert u[|head|..|head| + |a|] == a;
    assert v[|head|..|head| + |b|] == b;
  }

  /** The action area: an inactive listing is unavailable whatever the
      reservation; an active one shows the pay link while reserved, with
      `paymentLink || ""` as its target, and Buy/Back otherwise. */
  function ActionOf(isActive: bool, isReserved: bool, paymentLink: Option<string>): (a: PageAction)
    ensures a == NotAvailable <==> !isActive
    ensures a.PayLink? <==> isActive && isReserved
    ensures a.PayLink? ==> a.href == (if paymentLink.Some? then paymentLink.value else "")
    ensures a == BuyOrBack <==> isActive && !isReserved
  {
    if !isActive then NotAvailable
    else if isReserved then PayLink(if paymentLink.Some? then paymentLink.value else "")
    else BuyOrBack
  }

  /** Some revert timer in `deadlines` has come due at time `now`. */
  function AnyDue(deadlines: seq<nat>, now: nat): (due: bool)
    ensures due <==> exists i :: 0 <= i < |deadlines| && deadlines[i] <= now
  {
    if deadlines == [] then false
    else deadlines[0] <= now || AnyDue(deadlines[1..], now)
  }

  /** The revert timers still waiting at time `now`, in scheduling order. */
  function Pending(deadlines: seq<nat>, now: nat): (rest: seq<nat>)
    ensures |rest| <= |deadlines|
    ensures forall t :: t in rest <==> t in deadlines && t > now
  {
    if deadlines == [] then []
    else (if deadlines[0] > now then [deadlines[0]] else []) + Pending(deadlines[1..], now)
  }

  class ListingPage {
    /** The route parameter, fixed for the life of the page. */
    const listingId: Option<string>
    var listing: Option<ListingDetails>
    var error: Option<string>
    var isReserved: bool
    var paymentLink: Option<string>
    /** The clock, and the deadlines of the revert timers not yet fired. */
    var now: nat
    var revertAt: seq<nat>

    /** A freshly mounted page: nothing loaded, nothing reserved. */
    constructor (listingId: Option<string>)
      ensures this.listingId == listingId
      ensures listing.None? && error.None? && !isReserved && paymentLink.None?
      ensures now == 0 && revertAt == []
    {
      this.listingId := listingId;
      listing := None;
      error := None;
      isReserved := false;
      paymentLink := None;
      now := 0;
      revertAt := [];
    }

    /** The mount effect `fetchListing`, given what the contract read and the
        metadata fetch settle to. A missing id is an error and nothing is
        called; otherwise the resolver runs and either its record or its
        error message is stored. Returns the resolver's external calls. */
    method FetchListing(read: Outcome<ContractTuple>, ipfs: Outcome<MetadataDoc>, formatPrice: int -> string)
      returns (calls: seq<Call>)
      modifies this
      ensures MissingId(listingId) ==>
                calls == [] && error == Some(NoIdMessage) && listing == old(listing)
      ensures !MissingId(listingId) ==>
                var run := GetListingDetails(listingId.value, read, ipfs, formatPrice);
                calls == run.calls &&
                (run.result.Ok? ==> listing == Some(run.result.value) && error == old(error)) &&
                (run.result.Err? ==> listing == old(listing) && error == Some(ErrorText(run.result.thrown)))
      ensures isReserved == old(isReserved) && paymentLink == old(paymentLink)
      ensures now == old(now) && revertAt == old(revertAt)
    {
      if MissingId(listingId) {
        error := Some(NoIdMessage);
        return [];
      }
      var run := GetListingDetails(listingId.value, read, ipfs, formatPrice);
      calls := run.calls;
      match run.result
      case Ok(details) => listing := Some(details);
      case Err(t) => error := Some(ErrorText(t));
    }

    /** `buyListing`, given how the payment-link request settles. A failed
        request changes nothing. A reply is a reservation: `isReserved` is
        set before `data.url` is read, so a reply without `url` throws with
        the page already reserved and no revert timer scheduled. Otherwise
        the link is stored and a revert is due five minutes from now.
        Returns the requested URL. */
    method BuyListing(reply: Outcome<PaymentReply>) returns (request: string)
      modifies this
      ensures request == PaymentLinkEndpoint + IdText(listingId)
      ensures reply.Err? ==>
                isReserved == old(isReserved) && paymentLink == old(paymentLink) && revertAt == old(revertAt)
      ensures reply.Ok? ==> isReserved
      ensures reply.Ok? && reply.value.url.None? ==>
                paymentLink == old(paymentLink) && revertAt == old(revertAt)
      ensures reply.Ok? && reply.value.url.Some? ==>
                paymentLink == reply.value.url.value.paymentLink &&
                revertAt == old(revertAt) + [old(now) + ReservationMillis]
      ensures listing == old(listing) && error == old(error) && now == old(now)
    {
      request := PaymentLinkEndpoint + IdText(listingId);
      if reply.Err? {
        return;
      }
      isReserved := true;
      var url := reply.value.url;
      if url.None? {
        return;
      }
      paymentLink := url.value.paymentLink;
      revertAt := revertAt + [now + ReservationMillis];
    }

    /** Time passes: every revert timer whose deadline is reached fires,
        clearing the reservation. The payment link is never cleared. */
    method Tick(elapsed: nat)
      modifies this
      ensures now == old(now) + elapsed
      ensures isReserved == (old(isReserved) && forall i :: 0 <= i < |old(revertAt)| ==> old(revertAt)[i] > now)
      ensures revertAt == Pending(old(revertAt), now)
      ensures listing == old(listing) && error == old(error) && paymentLink == old(paymentLink)
    {
      now := now + elapsed;
      if AnyDue(revertAt, now) {
        isReserved := false;
      }
      revertAt := Pending(revertAt, now);
    }

    /** The render: an error message takes precedence (an empty message is
        falsy and is skipped), then "Loading..." until a listing is stored,
        then the details with the frame embed and the action area. */
    function View(origin: string): (v: PageView)
      reads this
      ensures v.ErrorView? <==> error.Some? && error.value != ""
      ensures v.ErrorView? ==> v.message == error.value
      ensures v.LoadingView? <==> !(error.Some? && error.value != "") && listing.None?
      ensures v.RenderFailure? <==> !(error.Some? && error.value != "") && listing.Some? && listing.value.metadata.NullDoc?
      ensures v.DetailView? ==>
                listing.Some? && listing.value.metadata.Doc? &&
                v.embed == EmbedFor(origin, IdText(listingId), listing.value) &&
                v.action == ActionOf(listing.value.isActive, isReserved, paymentLink)
    {
      if error.Some? && error.value != "" then ErrorView(error.value)
      else if listing.None? then LoadingView
      else if listing.value.metadata.NullDoc? then RenderFailure
      else DetailView(EmbedFor(origin, IdText(listingId), listing.value),
                      ActionOf(listing.value.isActive, isReserved, paymentLink))
    }
  }

  /** A page opened without an id shows the error and never calls out. */
  method OpenWithoutId(read: Outcome<ContractTuple>, ipfs: Outcome<MetadataDoc>, formatPrice: int -> string,
                       origin: string)
    returns (before: PageView, calls: seq<Call>, after: PageView)
    ensures before == LoadingView
    ensures calls == [] && after == ErrorView(NoIdMessage)
  {
    var page := new ListingPage(None);
    before := page.View(origin);
    calls := page.FetchListing(read, ipfs, formatPrice);
    after := page.View(origin);
  }

  /** A page opened on an id shows "Loading..." and then either the
      resolver's error, prefixed or not as the resolver decides, or the
      resolved listing with its Buy/Back or unavailable action area. */
  method OpenListing(id: string, read: Outcome<ContractTuple>, ipfs: Outcome<MetadataDoc>,
                     formatPrice: int -> string, origin: string)
    returns (before: PageView, after: PageView)
    requires id != ""
    ensures before == LoadingView
    ensures var run := GetListingDetails(id, read, ipfs, formatPrice);
            (after.ErrorView? <==> run.result.Err?) &&
            (run.result.Err? ==> after.message == run.result.thrown.message) &&
            (run.result.Ok? && run.result.value.metadata.Doc? ==>
               after.DetailView? &&
               after.action == (if run.result.value.isActive then BuyOrBack else NotAvailable))
  {
    var page := new ListingPage(Some(id));
    before := page.View(origin);
    var _ := page.FetchListing(read, ipfs, formatPrice);
    after := page.View(origin);
  }

  /** On a loaded, active listing, a successful reservation shows the pay
      link for exactly five minutes and Buy/Back afterwards; the link itself
      stays stored after the reservation lapses. */
  method ReservationWindow(id: string, tuple: ContractTuple, image: Option<string>, formatPrice: int -> string,
                           link: string, elapsed: nat, origin: string)
    returns (reserved: bool, kept: Option<string>, view: PageView)
    requires Digits(id) && tuple.5
    ensures reserved <==> elapsed < ReservationMillis
    ensures kept == Some(link)
    ensures view.DetailView?
    ensures elapsed < ReservationMillis ==> view.action == PayLink(link)
    ensures elapsed >= ReservationMillis ==> view.action == BuyOrBack
  {
    DigitsAreInteger(id);
    var page := new ListingPage(Some(id));
    var _ := page.FetchListing(Ok(tuple), Ok(Doc(image)), formatPrice);
    assert page.listing == Some(ToDetails(tuple, Doc(image), formatPrice));
    var _ := page.BuyListing(Ok(PaymentReply(Some(PaymentUrl(Some(link))))));
    assert page.revertAt == [ReservationMillis];
    page.Tick(elapsed);
    reserved := page.isReserved;
    kept := page.paymentLink;
    view := page.View(origin);
  }

  /** A reply without `url` leaves the page reserved for good: no revert
      timer was scheduled, and an active listing shows the pay link with an
      empty target. */
  method ReplyWithoutUrl(tuple: ContractTuple, image: Option<string>, formatPrice: int -> string,
                         elapsed: nat, origin: string)
    returns (reserved: bool, view: PageView)
    requires tuple.5
    ensures reserved
    ensures view.DetailView? && view.action == PayLink("")
  {
    DigitsAreInteger("7");
    var page := new ListingPage(Some("7"));
    var _ := page.FetchListing(Ok(tuple), Ok(Doc(image)), formatPrice);
    var _ := page.BuyListing(Ok(PaymentReply(None)));
    page.Tick(elapsed);
    reserved := page.isReserved;
    view := page.View(origin);
  }
}
