/**
 What the concert-creation handler guarantees, stated over the raw request:
 which check rejects which request, the boundary values each check lets
 through, the TypeError of the pre-sale future check, the shape of the ticket
 information document and of its URI.
 */
module OrganiserProperties {

  import opened Wrappers
  import opened Organiser
  import opened OrganiserRules

  /** Two requests with the same name, description and date-time strings. */
  predicate SameDescription(c1: Concert, c2: Concert)
  {
    && c1.concertName == c2.concertName
    && c1.concertDescription == c2.concertDescription
    && c1.concertStartDatetimeStr == c2.concertStartDatetimeStr
    && c1.preSaleStartDatetimeStr == c2.preSaleStartDatetimeStr
    && c1.preSaleEndDatetimeStr == c2.preSaleEndDatetimeStr
    && c1.generalSaleStartDatetimeStr == c2.generalSaleStartDatetimeStr
  }

  // ---------------------------------------------------------------------------
  // Parsing

  /**
   The request is rejected as 'Invalid Date Time Format' exactly when the
   concert start or the general-sale start does not parse, or a non-empty
   pre-sale string does not parse, whatever the other fields hold.
   */
  lemma MalformedDateRejected(c: Concert, parse: Parser, now: Timestamp)
    ensures Validate(c, parse, now) == Rejected(InvalidDateTimeFormat) <==>
              || parse(c.concertStartDatetimeStr).None?
              || parse(c.generalSaleStartDatetimeStr).None?
              || (c.preSaleStartDatetimeStr != "" && parse(c.preSaleStartDatetimeStr).None?)
              || (c.preSaleEndDatetimeStr != "" && parse(c.preSaleEndDatetimeStr).None?)
  {
  }

  /**
   The concert start and the general-sale start are parsed even when empty, so
   an empty one is a format error (the format cannot match the empty string).
   */
  lemma EmptyRequiredDateRejected(c: Concert, parse: Parser, now: Timestamp)
    requires parse("") == None
    requires c.concertStartDatetimeStr == "" || c.generalSaleStartDatetimeStr == ""
    ensures Validate(c, parse, now) == Rejected(InvalidDateTimeFormat)
  {
  }

  /**
   An empty pre-sale string is never parsed: it leaves its date-time absent,
   whatever the parser would make of it.
   */
  lemma EmptyPreSaleIsAbsent(c: Concert, parse: Parser)
    requires ParseDates(c, parse).Some?
    ensures c.preSaleStartDatetimeStr == "" <==> ParseDates(c, parse).value.preSaleStart.None?
    ensures c.preSaleEndDatetimeStr == "" <==> ParseDates(c, parse).value.preSaleEnd.None?
  {
  }

  /**
   'General sale start date is required' and 'Concert start date is required'
   are never answered: once parsing succeeds both date-times are present.
   */
  lemma RequiredChecksNeverFire(c: Concert, parse: Parser, now: Timestamp, writable: string -> bool,
                                upload: map<string, string> -> string, listingId: int)
    ensures Validate(c, parse, now) != Rejected(Broken(GeneralSaleStartGiven))
    ensures Validate(c, parse, now) != Rejected(Broken(ConcertStartGiven))
    ensures CreateConcert(c, parse, now, writable, upload, listingId) != BadRequest("General sale start date is required")
    ensures CreateConcert(c, parse, now, writable, upload, listingId) != BadRequest("Concert start date is required")
  {
  }

  // ---------------------------------------------------------------------------
  // Ticket counts and prices

  /**
   A total of zero or fewer tickets is rejected first; with a positive total,
   a pre-sale quantity above it is rejected and one equal to it is not,
   although the message says "less than".
   */
  lemma TicketCountBoundaries(c: Concert, parse: Parser, now: Timestamp)
    requires ParseDates(c, parse).Some?
    ensures Validate(c, parse, now) == Rejected(Broken(TotalTicketsPositive)) <==> c.totalTickets <= 0
    ensures 0 < c.totalTickets ==>
              (Validate(c, parse, now) == Rejected(Broken(PreSaleWithinTotal)) <==> c.preSaleQuality > c.totalTickets)
  {
  }

  /**
   A negative price is rejected with its own message and a price of exactly 0
   is not, although the messages say "greater than 0".
   */
  lemma PriceBoundaries(c: Concert, parse: Parser, now: Timestamp)
    requires ParseDates(c, parse).Some?
    requires 0 < c.totalTickets && c.preSaleQuality <= c.totalTickets
    ensures Validate(c, parse, now) == Rejected(Broken(PreSalePriceNonNegative)) <==> c.preSaleTicketPrice < 0
    ensures 0 <= c.preSaleTicketPrice ==>
              (Validate(c, parse, now) == Rejected(Broken(GeneralSalePriceNonNegative)) <==> c.generalSaleTicketPrice < 0)
  {
  }

  // ---------------------------------------------------------------------------
  // Window ordering

  /**
   With valid counts and prices, the pre-sale window is rejected exactly when
   both ends are given and the start is after the end; equal ends pass.
   */
  lemma PreSaleWindowOrdering(c: Concert, parse: Parser, now: Timestamp)
    requires ParseDates(c, parse).Some?
    requires CountsAndPricesValid(c)
    ensures Validate(c, parse, now) == Rejected(Broken(PreSaleStartBeforeEnd)) <==>
              && c.preSaleStartDatetimeStr != ""
              && c.preSaleEndDatetimeStr != ""
              && parse(c.preSaleStartDatetimeStr).value > parse(c.preSaleEndDatetimeStr).value
  {
  }

  /**
   Past the pre-sale window check, the pre-sale end is rejected exactly when it
   is given and after the general-sale start; an equal timestamp passes.
   */
  lemma PreSaleEndOrdering(c: Concert, parse: Parser, now: Timestamp)
    requires ParseDates(c, parse).Some?
    requires CountsAndPricesValid(c)
    requires c.preSaleStartDatetimeStr != "" && c.preSaleEndDatetimeStr != "" ==>
               parse(c.preSaleStartDatetimeStr).value <= parse(c.preSaleEndDatetimeStr).value
    ensures Validate(c, parse, now) == Rejected(Broken(PreSaleEndBeforeGeneralSale)) <==>
              && c.preSaleEndDatetimeStr != ""
              && parse(c.preSaleEndDatetimeStr).value > parse(c.generalSaleStartDatetimeStr).value
  {
  }

  // ---------------------------------------------------------------------------
  // Future checks

  /**
   The handler raises TypeError (answered with status 500) exactly when every
   earlier check passes, a pre-sale end is given and the pre-sale start is
   empty: its guard tests the end but compares the start with the clock.
   */
  lemma CrashIff(c: Concert, parse: Parser, now: Timestamp)
    ensures Validate(c, parse, now) == Crashed <==>
              && ParseDates(c, parse).Some?
              && CountsAndPricesValid(c)
              && c.preSaleStartDatetimeStr == ""
              && c.preSaleEndDatetimeStr != ""
              && parse(c.preSaleEndDatetimeStr).value <= parse(c.generalSaleStartDatetimeStr).value
  {
  }

  /** Without a pre-sale end the pre-sale start is never compared with the clock, and nothing raises. */
  lemma PreSaleFutureCheckNeedsEnd(c: Concert, parse: Parser, now: Timestamp)
    requires c.preSaleEndDatetimeStr == ""
    ensures Validate(c, parse, now) != Rejected(Broken(PreSaleStartInFuture))
    ensures Validate(c, parse, now) != Crashed
  {
  }

  /**
   Without a pre-sale end, the pre-sale start only has to parse: any other
   parseable or empty string in its place gives the same decision, even one in
   the past.
   */
  lemma PreSaleStartIgnoredWithoutEnd(c: Concert, parse: Parser, now: Timestamp, s: string)
    requires c.preSaleEndDatetimeStr == ""
    requires c.preSaleStartDatetimeStr == "" || parse(c.preSaleStartDatetimeStr).Some?
    requires s == "" || parse(s).Some?
    ensures Validate(c.(preSaleStartDatetimeStr := s), parse, now).Accepted? == Validate(c, parse, now).Accepted?
    ensures !Validate(c, parse, now).Accepted? ==>
              Validate(c.(preSaleStartDatetimeStr := s), parse, now) == Validate(c, parse, now)
  {
  }

  /**
   Once everything up to the pre-sale future check passes, the general-sale
   start and then the concert start are rejected exactly when strictly before
   `now`; a value equal to `now` is accepted.
   */
  lemma FutureChecks(c: Concert, parse: Parser, now: Timestamp)
    requires ParseDates(c, parse).Some?
    requires CountsAndPricesValid(c)
    requires WindowsOrdered(ParseDates(c, parse).value)
    requires c.preSaleEndDatetimeStr != "" ==>
               c.preSaleStartDatetimeStr != "" && now <= parse(c.preSaleStartDatetimeStr).value
    ensures Validate(c, parse, now) == Rejected(Broken(GeneralSaleStartInFuture)) <==>
              parse(c.generalSaleStartDatetimeStr).value < now
    ensures now <= parse(c.generalSaleStartDatetimeStr).value ==>
              (Validate(c, parse, now) == Rejected(Broken(ConcertStartInFuture)) <==>
                 parse(c.concertStartDatetimeStr).value < now)
    ensures Validate(c, parse, now).Accepted? <==>
              && now <= parse(c.generalSaleStartDatetimeStr).value
              && now <= parse(c.concertStartDatetimeStr).value
  {
  }

  /**
   With a pre-sale end given, the pre-sale start is rejected exactly when it is
   strictly before `now`, once the earlier checks pass and it is given.
   */
  lemma PreSaleStartFutureCheck(c: Concert, parse: Parser, now: Timestamp)
    requires ParseDates(c, parse).Some?
    requires CountsAndPricesValid(c)
    requires WindowsOrdered(ParseDates(c, parse).value)
    requires c.preSaleStartDatetimeStr != "" && c.preSaleEndDatetimeStr != ""
    ensures Validate(c, parse, now) == Rejected(Broken(PreSaleStartInFuture)) <==>
              parse(c.preSaleStartDatetimeStr).value < now
  {
  }

  /** A concert that starts before `now` is never accepted, whatever the other fields hold. */
  lemma PastConcertNeverAccepted(c: Concert, parse: Parser, now: Timestamp)
    requires parse(c.concertStartDatetimeStr).Some? && parse(c.concertStartDatetimeStr).value < now
    ensures !Validate(c, parse, now).Accepted?
  {
  }

  /**
   A request whose pre-sale window starts no earlier than `now` and ends no
   later than the general sale, whose concert starts no earlier than `now`,
   and whose counts and prices are valid is accepted. The concert start is
   never compared with the general-sale start.
   */
  lemma OrderedFutureRequestAccepted(c: Concert, parse: Parser, now: Timestamp)
    requires CountsAndPricesValid(c)
    requires c.preSaleStartDatetimeStr != "" && c.preSaleEndDatetimeStr != ""
    requires parse(c.preSaleStartDatetimeStr).Some? && parse(c.preSaleEndDatetimeStr).Some?
    requires parse(c.generalSaleStartDatetimeStr).Some? && parse(c.concertStartDatetimeStr).Some?
    requires now <= parse(c.preSaleStartDatetimeStr).value
    requires parse(c.preSaleStartDatetimeStr).value <= parse(c.preSaleEndDatetimeStr).value
    requires parse(c.preSaleEndDatetimeStr).value <= parse(c.generalSaleStartDatetimeStr).value
    requires now <= parse(c.concertStartDatetimeStr).value
    ensures Validate(c, parse, now) == Accepted(TicketInfo(c))
  {
  }

  // ---------------------------------------------------------------------------
  // The ticket information document and its URI

  /** Each key of the document holds the request's own string. */
  lemma TicketInfoHoldsRequestStrings(c: Concert)
    ensures TicketInfo(c)[ConcertNameKey] == c.concertName
    ensures TicketInfo(c)[ConcertDescriptionKey] == c.concertDescription
    ensures TicketInfo(c)[ConcertStartKey] == c.concertStartDatetimeStr
    ensures TicketInfo(c)[PreSaleStartKey] == c.preSaleStartDatetimeStr
    ensures TicketInfo(c)[PreSaleEndKey] == c.preSaleEndDatetimeStr
    ensures TicketInfo(c)[GeneralSaleStartKey] == c.generalSaleStartDatetimeStr
  {
  }

  /**
   The document is determined by, and determines, the six descriptive fields:
   addresses, payout percentages, ticket counts, prices and the private key do
   not reach it.
   */
  lemma TicketInfoIffSameDescription(c1: Concert, c2: Concert)
    ensures TicketInfo(c1) == TicketInfo(c2) <==> SameDescription(c1, c2)
  {
  }

  /** Changing any field outside the description leaves the document as it was. */
  lemma TicketInfoOmitsFinancialAndIdentityFields(
    c: Concert, artist: string, venue: string, organiser: string, privateKey: string,
    artistPayout: int, organiserPayout: int, venuePayout: int,
    total: int, preSale: int, preSalePrice: int, generalSalePrice: int)
    ensures TicketInfo(c.(artistAddress := artist, venueAddress := venue, organiserAddress := organiser,
                          organiserPrivateKey := privateKey, artistPayoutPercentage := artistPayout,
                          organiserPayoutPercentage := organiserPayout, venuePayoutPercentage := venuePayout,
                          totalTickets := total, preSaleQuality := preSale, preSaleTicketPrice := preSalePrice,
                          generalSaleTicketPrice := generalSalePrice)) == TicketInfo(c)
  {
  }

  /** The URI is "ipfs://" followed by the content identifier, which can be read back from it. */
  lemma TicketInfoUriRoundTrip(cid: string, uri: string)
    ensures CidOf(TicketInfoUri(cid)) == Some(cid)
    ensures CidOf(uri) == Some(cid) <==> uri == TicketInfoUri(cid)
  {
  }

  /** Distinct content identifiers give distinct URIs. */
  lemma TicketInfoUriInjective(cid1: string, cid2: string)
    ensures TicketInfoUri(cid1) == TicketInfoUri(cid2) <==> cid1 == cid2
  {
    TicketInfoUriRoundTrip(cid1, TicketInfoUri(cid2));
  }

  // ---------------------------------------------------------------------------
  // The handler

  /**
   The temporary file is named after the concert alone: two requests share it
   exactly when they share the concert name.
   */
  lemma TicketInfoPathSharedIffSameName(name1: string, name2: string)
    ensures TicketInfoPath(name1) == TicketInfoPath(name2) <==> name1 == name2
  {
  }

  /**
   Two accepted requests with the same description write the same file and
   upload the same document: either both fail the write, or both are created
   and a content-addressed store gives them the same identifier.
   */
  lemma SameDescriptionSameCid(c1: Concert, c2: Concert, parse: Parser, now: Timestamp, writable: string -> bool,
                               upload: map<string, string> -> string, id1: int, id2: int)
    requires SameDescription(c1, c2)
    requires Validate(c1, parse, now).Accepted? && Validate(c2, parse, now).Accepted?
    ensures CreateConcert(c1, parse, now, writable, upload, id1).Created? ==
            CreateConcert(c2, parse, now, writable, upload, id2).Created?
    ensures CreateConcert(c1, parse, now, writable, upload, id1).Created? ==>
              CreateConcert(c1, parse, now, writable, upload, id1).cid == CreateConcert(c2, parse, now, writable, upload, id2).cid
  {
  }

  /**
   Status 200 needs acceptance and a writable temporary file; every refused
   request gets 400 with its rule's message, and 500 comes from the TypeError
   or from the failed write.
   */
  lemma ReplyStatus(c: Concert, parse: Parser, now: Timestamp, writable: string -> bool,
                    upload: map<string, string> -> string, listingId: int)
    ensures StatusCode(CreateConcert(c, parse, now, writable, upload, listingId)) == 200 <==>
              Validate(c, parse, now).Accepted? && writable(TicketInfoPath(c.concertName))
    ensures StatusCode(CreateConcert(c, parse, now, writable, upload, listingId)) == 400 <==>
              Validate(c, parse, now).Rejected?
    ensures StatusCode(CreateConcert(c, parse, now, writable, upload, listingId)) == 500 <==>
              || Validate(c, parse, now) == Crashed
              || (Validate(c, parse, now).Accepted? && !writable(TicketInfoPath(c.concertName)))
  {
  }
}
