/**
 The concert-creation endpoint of the organiser routes: the request body, the
 date-time parsing done in its `try` block, the fail-fast validator that
 follows, the off-chain ticket information document, its storage URI and the
 reply the handler gives.

 The file system, the storage upload and the ledger transaction are not
 modelled; whether the temporary file can be written, the content identifier
 returned by the upload and the listing identifier read from the ledger enter
 as parameters of `CreateConcert`.
 */
module Organiser {

  import opened Wrappers

  /** A point on the server's naive local clock, as an integer count of one fixed unit. */
  type Timestamp = int

  /** `datetime.strptime(s, '%Y-%m-%d %H:%M:%S')`: the point it denotes, or None where it raises ValueError. */
  type Parser = string -> Option<Timestamp>

  /** The JSON body of POST /concerts. Python integers are unbounded, and so are these. */
  datatype Concert = Concert(
    concertName: string,
    artistAddress: string,
    venueAddress: string,
    artistPayoutPercentage: int,
    organiserPayoutPercentage: int,
    venuePayoutPercentage: int,
    totalTickets: int,
    preSaleQuality: int, // the number of pre-sale tickets, under the body's own field name
    preSaleTicketPrice: int,
    generalSaleTicketPrice: int,
    concertDescription: string,
    concertStartDatetimeStr: string,
    preSaleStartDatetimeStr: string,
    preSaleEndDatetimeStr: string,
    generalSaleStartDatetimeStr: string,
    organiserAddress: string,
    organiserPrivateKey: string)

  /** The four date-time locals once the `try` block is done; None where the local holds Python's None. */
  datatype Dates = Dates(
    concertStart: Option<Timestamp>,
    preSaleStart: Option<Timestamp>,
    preSaleEnd: Option<Timestamp>,
    generalSaleStart: Option<Timestamp>)

  /** The checks that follow the parsing, each named by what it demands. */
  datatype Rule =
    | TotalTicketsPositive
    | PreSaleWithinTotal
    | PreSalePriceNonNegative
    | GeneralSalePriceNonNegative
    | PreSaleStartBeforeEnd
    | GeneralSaleStartGiven
    | ConcertStartGiven
    | PreSaleEndBeforeGeneralSale
    | PreSaleStartInFuture
    | GeneralSaleStartInFuture
    | ConcertStartInFuture

  /** Why a request is answered with status 400. */
  datatype Rejection = InvalidDateTimeFormat | Broken(rule: Rule)

  /**
   What the validator decides: the request is accepted with its ticket
   information document, rejected with a client error, or the handler raises
   an uncaught TypeError.
   */
  datatype Verdict =
    | Accepted(ticketInfo: map<string, string>)
    | Rejected(reason: Rejection)
    | Crashed

  /** The HTTP answer of the endpoint. */
  datatype Reply =
    | Created(concertId: int, cid: string)
    | BadRequest(detail: string)
    | InternalServerError

  /** The `detail` text of each client error. */
  function Message(r: Rejection): string
  {
    match r
    case InvalidDateTimeFormat => "Invalid Date Time Format"
    case Broken(TotalTicketsPositive) => "Total tickets must be greater than 0"
    case Broken(PreSaleWithinTotal) => "Pre-sale quantity must be less than total tickets"
    case Broken(PreSalePriceNonNegative) => "Pre-sale ticket price must be greater than 0"
    case Broken(GeneralSalePriceNonNegative) => "General sale ticket price must be greater than 0"
    case Broken(PreSaleStartBeforeEnd) => "Pre-sale start date must be before pre-sale end date"
    case Broken(GeneralSaleStartGiven) => "General sale start date is required"
    case Broken(ConcertStartGiven) => "Concert start date is required"
    case Broken(PreSaleEndBeforeGeneralSale) => "Pre-sale end date must be before general sale start date"
    case Broken(PreSaleStartInFuture) => "Pre-sale start date must be in the future"
    case Broken(GeneralSaleStartInFuture) => "General sale start date must be in the future"
    case Broken(ConcertStartInFuture) => "Concert start date must be in the future"
  }

  /**
   Every client error has a message of its own, so the detail text tells which
   check failed. (The messages even differ in length.)
   */
  lemma MessagesDistinct(r1: Rejection, r2: Rejection)
    ensures Message(r1) == Message(r2) <==> r1 == r2
  {
  }

  /** A pre-sale string: the empty string is falsy and leaves the local None; any other string is parsed. */
  function ParseOptional(s: string, parse: Parser): (r: Option<Option<Timestamp>>)
  {
    if s == "" then Some(None)
    else match parse(s)
      case None => None
      case Some(t) => Some(Some(t))
  }

  /**
   The `try` block: the concert start and the general-sale start are parsed
   whatever they hold, the pre-sale strings only when non-empty, and any
   ValueError ends in None.
   */
  function ParseDates(c: Concert, parse: Parser): (r: Option<Dates>)
    ensures r.None? <==>
              || parse(c.concertStartDatetimeStr).None?
              || parse(c.generalSaleStartDatetimeStr).None?
              || (c.preSaleStartDatetimeStr != "" && parse(c.preSaleStartDatetimeStr).None?)
              || (c.preSaleEndDatetimeStr != "" && parse(c.preSaleEndDatetimeStr).None?)
    ensures r.Some? ==> r.value.concertStart.Some? && r.value.generalSaleStart.Some?
    ensures r.Some? ==> r.value.concertStart == parse(c.concertStartDatetimeStr)
    ensures r.Some? ==> r.value.generalSaleStart == parse(c.generalSaleStartDatetimeStr)
    ensures r.Some? ==> r.value.preSaleStart == (if c.preSaleStartDatetimeStr == "" then None else parse(c.preSaleStartDatetimeStr))
    ensures r.Some? ==> r.value.preSaleEnd == (if c.preSaleEndDatetimeStr == "" then None else parse(c.preSaleEndDatetimeStr))
  {
    var concertStart := parse(c.concertStartDatetimeStr);
    var preSaleStart := ParseOptional(c.preSaleStartDatetimeStr, parse);
    var preSaleEnd := ParseOptional(c.preSaleEndDatetimeStr, parse);
    var generalSaleStart := parse(c.generalSaleStartDatetimeStr);
    if concertStart.None? || preSaleStart.None? || preSaleEnd.None? || generalSaleStart.None? then None
    else Some(Dates(concertStart, preSaleStart.value, preSaleEnd.value, generalSaleStart))
  }

  /** The keys of the ticket information document. */
  const ConcertNameKey := "concert_name"
  const ConcertDescriptionKey := "concert_description"
  const ConcertStartKey := "concert_start_datetime"
  const PreSaleStartKey := "pre_sale_start_datetime"
  const PreSaleEndKey := "pre_sale_end_datetime"
  const GeneralSaleStartKey := "general_sale_start_datetime"

  const TicketInfoKeys: set<string> :=
    {ConcertNameKey, ConcertDescriptionKey, ConcertStartKey, PreSaleStartKey, PreSaleEndKey, GeneralSaleStartKey}

  /**
   The document stored off-chain for an accepted concert: the name, the
   description and the four date-time strings exactly as the request gave them.
   */
  function TicketInfo(c: Concert): (doc: map<string, string>)
    ensures doc.Keys == TicketInfoKeys
  {
    map[
      ConcertNameKey := c.concertName,
      ConcertDescriptionKey := c.concertDescription,
      ConcertStartKey := c.concertStartDatetimeStr,
      PreSaleStartKey := c.preSaleStartDatetimeStr,
      PreSaleEndKey := c.preSaleEndDatetimeStr,
      GeneralSaleStartKey := c.generalSaleStartDatetimeStr]
  }

  /** The ticket counts and prices pass their four checks. */
  predicate CountsAndPricesValid(c: Concert)
  {
    && 0 < c.totalTickets
    && c.preSaleQuality <= c.totalTickets
    && 0 <= c.preSaleTicketPrice
    && 0 <= c.generalSaleTicketPrice
  }

  /** The two window-ordering checks pass on the parsed date-times. */
  predicate WindowsOrdered(d: Dates)
  {
    && (d.preSaleStart.Some? && d.preSaleEnd.Some? ==> d.preSaleStart.value <= d.preSaleEnd.value)
    && (d.preSaleEnd.Some? && d.generalSaleStart.Some? ==> d.preSaleEnd.value <= d.generalSaleStart.value)
  }

  /**
   The three future checks pass without raising: the general-sale and concert
   starts are present and not before `now`, and a given pre-sale end comes
   with a pre-sale start not before `now`.
   */
  predicate NotInPast(d: Dates, now: Timestamp)
  {
    && d.generalSaleStart.Some? && now <= d.generalSaleStart.value
    && d.concertStart.Some? && now <= d.concertStart.value
    && (d.preSaleEnd.Some? ==> d.preSaleStart.Some? && now <= d.preSaleStart.value)
  }

  /**
   The validation block of the handler: the `try` block, then one guard per
   source check, in source order. `now` stands for every `datetime.now()` of
   the block.
   */
  function Validate(c: Concert, parse: Parser, now: Timestamp): (v: Verdict)
    ensures v.Accepted? ==> v.ticketInfo == TicketInfo(c)
    ensures v.Accepted? <==>
              && ParseDates(c, parse).Some?
              && CountsAndPricesValid(c)
              && WindowsOrdered(ParseDates(c, parse).value)
              && NotInPast(ParseDates(c, parse).value, now)
  {
    match ParseDates(c, parse)
    case None => Rejected(InvalidDateTimeFormat)
    case Some(d) => ValidateParsed(c, d, now)
  }

  /** The guards that follow the `try` block, over the parsed date-times `d`. */
  function ValidateParsed(c: Concert, d: Dates, now: Timestamp): (v: Verdict)
    ensures v.Accepted? ==> v.ticketInfo == TicketInfo(c)
    ensures v.Accepted? <==> CountsAndPricesValid(c) && WindowsOrdered(d) && NotInPast(d, now)
  {
    if c.totalTickets <= 0 then Rejected(Broken(TotalTicketsPositive))
    else if c.preSaleQuality > c.totalTickets then Rejected(Broken(PreSaleWithinTotal))
    else if c.preSaleTicketPrice < 0 then Rejected(Broken(PreSalePriceNonNegative))
    else if c.generalSaleTicketPrice < 0 then Rejected(Broken(GeneralSalePriceNonNegative))
    else if d.preSaleStart.Some? && d.preSaleEnd.Some? && d.preSaleStart.value > d.preSaleEnd.value then
      Rejected(Broken(PreSaleStartBeforeEnd))
    else if d.generalSaleStart.None? then Rejected(Broken(GeneralSaleStartGiven))
    else if d.concertStart.None? then Rejected(Broken(ConcertStartGiven))
    else if d.preSaleEnd.Some? && d.generalSaleStart.Some? && d.preSaleEnd.value > d.generalSaleStart.value then
      Rejected(Broken(PreSaleEndBeforeGeneralSale))
    // The guard tests the pre-sale end but compares the pre-sale start: `None < now` raises TypeError.
    else if d.preSaleEnd.Some? && d.preSaleStart.None? then Crashed
    else if d.preSaleEnd.Some? && d.preSaleStart.value < now then Rejected(Broken(PreSaleStartInFuture))
    else if d.generalSaleStart.value < now then Rejected(Broken(GeneralSaleStartInFuture))
    else if d.concertStart.value < now then Rejected(Broken(ConcertStartInFuture))
    else Accepted(TicketInfo(c))
  }

  const IpfsScheme := "ipfs://"

  /** The URI under which the ledger records the ticket information. */
  function TicketInfoUri(cid: string): (uri: string)
    ensures CidOf(uri) == Some(cid)
  {
    IpfsScheme + cid
  }

  /** The content identifier a ticket information URI names, if it is one. */
  function CidOf(uri: string): (cid: Option<string>)
  {
    if |uri| >= |IpfsScheme| && uri[..|IpfsScheme|] == IpfsScheme then Some(uri[|IpfsScheme|..]) else None
  }

  /** The `ticket_info_uri` argument of the ledger transaction: the URI of the uploaded document. */
  function ListingUri(c: Concert, upload: map<string, string> -> string): (uri: string)
    ensures CidOf(uri) == Some(upload(TicketInfo(c)))
  {
    TicketInfoUri(upload(TicketInfo(c)))
  }

  const TempPrefix := "temp/ticket_info_"
  const TempSuffix := ".json"

  /** The temporary file the document is written to before the upload, named after the concert. */
  function TicketInfoPath(concertName: string): (path: string)
    ensures |path| == |TempPrefix| + |concertName| + |TempSuffix|
    ensures path[..|TempPrefix|] == TempPrefix
    ensures path[|TempPrefix|..|path| - |TempSuffix|] == concertName
    ensures path[|path| - |TempSuffix|..] == TempSuffix
  {
    TempPrefix + concertName + TempSuffix
  }

  /**
   The whole handler, with the file system, the storage upload and the ledger
   read as parameters: `writable` tells whether `open(path, 'w')` succeeds,
   `upload` gives the content identifier of a document, and `listingId` is
   the identifier read from the ledger before submission. The receipt's
   status is never read, so a reverted transaction is answered like a mined
   one.
   */
  function CreateConcert(c: Concert, parse: Parser, now: Timestamp, writable: string -> bool,
                         upload: map<string, string> -> string, listingId: int): (reply: Reply)
    ensures reply.Created? <==> Validate(c, parse, now).Accepted? && writable(TicketInfoPath(c.concertName))
    ensures reply.Created? ==> reply.concertId == listingId && reply.cid == upload(TicketInfo(c))
    ensures reply.Created? ==> ListingUri(c, upload) == TicketInfoUri(reply.cid)
    ensures reply.BadRequest? <==> Validate(c, parse, now).Rejected?
    ensures reply.BadRequest? ==> reply.detail == Message(Validate(c, parse, now).reason)
    ensures reply.InternalServerError? <==>
              Validate(c, parse, now) == Crashed
              || (Validate(c, parse, now).Accepted? && !writable(TicketInfoPath(c.concertName)))
  {
    match Validate(c, parse, now)
    case Accepted(info) =>
      // An unwritable path makes `open` raise, which the framework answers with status 500.
      if writable(TicketInfoPath(c.concertName)) then Created(listingId, upload(info)) else InternalServerError
    case Rejected(r) => BadRequest(Message(r))
    case Crashed => InternalServerError
  }

  /** The HTTP status of a reply. */
  function StatusCode(reply: Reply): int
  {
    match reply
    case Created(_, _) => 200
    case BadRequest(_) => 400
    case InternalServerError => 500
  }
}
