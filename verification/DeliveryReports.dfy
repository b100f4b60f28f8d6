/** What the provider's reports make of a submitted dispatch, in whatever order they come
    (apps/api/src/prisma-repositories.ts:11640-11758). */
module DeliveryReports {
  import opened Wrappers
  import opened DispatchStore
  import opened ProtocolSafety

  datatype Report = Report(event: DeliveryEvent, at: int)

  /** The reports of one message, one after the other. */
  function After(s: Store, externalMessageId: string, reports: seq<Report>): Store {
    if reports == [] then s
    else
      var last := reports[|reports| - 1];
      ApplyDeliveryEvent(After(s, externalMessageId, reports[..|reports| - 1]), externalMessageId, last.event, last.at)
  }

  /** The status that a report of success speaks of. */
  function Reached(event: DeliveryEvent): DispatchStatus {
    match event
    case ServerAck => Sent
    case DeliveryAck => Delivered
    case ReadReceipt => Read
    case DeliveryError => Submitted
  }

  /** The furthest status any report speaks of. */
  function Furthest(reports: seq<Report>): DispatchStatus {
    if reports == [] then Submitted
    else
      var before, last := Furthest(reports[..|reports| - 1]), Reached(reports[|reports| - 1].event);
      if Stage(before) < Stage(last) then last else before
  }

  lemma {:induction false} FurthestIsReached(reports: seq<Report>)
    ensures forall r | r in reports :: Stage(Reached(r.event)) <= Stage(Furthest(reports))
    ensures Furthest(reports) == Submitted || exists r :: r in reports && Reached(r.event) == Furthest(reports)
  {
    if reports != [] {
      var before, last := reports[..|reports| - 1], reports[|reports| - 1];
      FurthestIsReached(before);
      assert reports == before + [last];
      if Stage(Furthest(before)) < Stage(Reached(last.event)) {
        assert last in reports && Reached(last.event) == Furthest(reports);
      }
    }
  }

  /** What a submitted dispatch becomes. A failure counts only as the first report; after
      that, a dispatch is as far as its furthest report, whatever their order and however
      often they repeat, and was sent at the first. */
  lemma {:induction false} ReportsAccumulate(s: Store, externalMessageId: string, reports: seq<Report>)
    requires s.dispatch.status.Submitted? && s.dispatch.sentAt.None?
    requires s.dispatch.externalMessageId == Some(externalMessageId)
    ensures var d, d' := s.dispatch, After(s, externalMessageId, reports).dispatch;
      && After(s, externalMessageId, reports) == s.(dispatch := d')
      && d' == d.(status := d'.status, sentAt := d'.sentAt, errorMessage := d'.errorMessage)
      && (if reports == [] then d' == d
          else if reports[0].event.DeliveryError? then
            d'.status == Failed && d'.sentAt == None && d'.errorMessage == Some(FailedBeforeServerAck)
          else
            d'.status == Furthest(reports) && IsConfirmed(d'.status)
            && d'.sentAt == Some(reports[0].at) && d'.errorMessage == None)
  {
    if reports == [] {
      assert s.(dispatch := s.dispatch) == s;
    } else {
      ReportsAccumulate(s, externalMessageId, reports[..|reports| - 1]);
      assert |reports| > 1 ==> reports[..|reports| - 1][0] == reports[0];
      assert Furthest(reports[..0]) == Submitted;
    }
  }

  /** So reports may be swapped, as long as the first stays first. */
  lemma OrderDoesNotMatter(s: Store, externalMessageId: string, reports: seq<Report>, reports': seq<Report>)
    requires s.dispatch.status.Submitted? && s.dispatch.sentAt.None?
    requires s.dispatch.externalMessageId == Some(externalMessageId)
    requires reports != [] && reports' != [] && reports[0] == reports'[0]
    requires forall r :: r in reports <==> r in reports'
    ensures After(s, externalMessageId, reports) == After(s, externalMessageId, reports')
  {
    ReportsAccumulate(s, externalMessageId, reports);
    ReportsAccumulate(s, externalMessageId, reports');
    FurthestIsReached(reports);
    FurthestIsReached(reports');
    SameStage(Furthest(reports), Furthest(reports'));
  }

  lemma SameStage(a: DispatchStatus, b: DispatchStatus)
    ensures Stage(a) == Stage(b) && Stage(a) < 6 ==> a == b
  {
  }

  /** A report under another identifier, or of a dispatch that is not with the provider or
      was read already, changes nothing; nor does a failure of one that was sent. The end of the waiting time only makes a dispatch
      that is still submitted ambiguous, which no report changes again. */
  lemma OthersAreNotReported(s: Store, externalMessageId: string, event: DeliveryEvent, at: int)
    ensures var isOver := s.dispatch.status in {Pending, Processing, Failed, Ambiguous, Read};
            isOver || s.dispatch.externalMessageId != Some(externalMessageId) ==>
              ApplyDeliveryEvent(s, externalMessageId, event, at) == s
    ensures s.dispatch.sentAt.Some? ==> ApplyDeliveryEvent(s, externalMessageId, DeliveryError, at) == s
    ensures ExpireConfirmation(s) ==
              if s.dispatch.status == Submitted
              then s.(dispatch := s.dispatch.(status := Ambiguous, errorMessage := Some(ConfirmationExpired)))
              else s
  {
  }
}
