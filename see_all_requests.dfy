/** The request inbox screen: prayer requests and messages whose status moves
    from unread to read to responded, listed through a status filter with a
    count per status. */
module SeeAllRequests {
  import opened Collections

  datatype RequestStatus = Unread | Read | Responded

  datatype Request = Request(
    id: string,
    requesterName: string,
    requesterEmail: string,
    message: string,
    date: string,
    status: RequestStatus,
    category: string)

  /** The filter buttons: all requests, or those with one status. */
  datatype RequestFilter = AllRequests | StatusIs(status: RequestStatus)

  datatype StatusCounts = StatusCounts(unread: nat, read: nat, responded: nat)

  /** The status colours (warning, gold and success brand classes). */
  datatype StatusColor = Warning | Gold | Success

  ghost predicate IdsDistinct(requests: seq<Request>) {
    forall i, j :: 0 <= i < j < |requests| ==> requests[i].id != requests[j].id
  }

  /** Position of a status in the workflow unread < read < responded. */
  function Rank(s: RequestStatus): nat {
    match s
    case Unread => 0
    case Read => 1
    case Responded => 2
  }

  // ---------------------------------------------------------------------------
  // Status update

  function IdIs(id: string): Request -> bool {
    (r: Request) => r.id == id
  }

  function SetStatus(status: RequestStatus): Request -> Request {
    (r: Request) => r.(status := status)
  }

  /** The new list `updateStatus(id, newStatus)` stores. */
  function WithStatus(requests: seq<Request>, id: string, newStatus: RequestStatus): (r: seq<Request>)
    ensures |r| == |requests|
    ensures forall i :: 0 <= i < |requests| ==>
      r[i] == if requests[i].id == id then requests[i].(status := newStatus) else requests[i]
  {
    MapWhere(IdIs(id), SetStatus(newStatus), requests)
  }

  /** Updating a status twice is the same as updating it once. */
  lemma UpdateStatusIdempotent(requests: seq<Request>, id: string, newStatus: RequestStatus)
    ensures WithStatus(WithStatus(requests, id, newStatus), id, newStatus) == WithStatus(requests, id, newStatus)
  {
    MapWhereIdempotent(IdIs(id), SetStatus(newStatus), requests);
  }

  /** An update keeps the ids, so distinct ids stay distinct. */
  lemma UpdateStatusKeepsIds(requests: seq<Request>, id: string, newStatus: RequestStatus)
    requires IdsDistinct(requests)
    ensures IdsDistinct(WithStatus(requests, id, newStatus))
  {
  }

  // ---------------------------------------------------------------------------
  // Filter and counts

  function HasStatus(status: RequestStatus): Request -> bool {
    (r: Request) => r.status == status
  }

  function Passes(filter: RequestFilter): Request -> bool {
    (r: Request) => filter == AllRequests || r.status == filter.status
  }

  /** `filteredRequests`. */
  function FilteredRequests(requests: seq<Request>, filter: RequestFilter): (r: seq<Request>)
    ensures filter == AllRequests ==> r == requests
    ensures filter.StatusIs? ==> forall x :: x in r <==> x in requests && x.status == filter.status
  {
    Filter(Passes(filter), requests)
  }

  /** With a status filter the view is an order-preserving subsequence. */
  lemma FilteredRequestsKeepsOrder(requests: seq<Request>, filter: RequestFilter)
    ensures IsSubsequence(FilteredRequests(requests, filter), requests)
  {
    FilterIsSubsequence(Passes(filter), requests);
  }

  /** The number of requests with the given status. */
  function CountOf(requests: seq<Request>, status: RequestStatus): (n: nat)
    ensures n == Count(HasStatus(status), requests)
    ensures n <= |requests|
    ensures n == 0 <==> forall i :: 0 <= i < |requests| ==> requests[i].status != status
  {
    FilterEmptyIff(HasStatus(status), requests);
    FilterCount(HasStatus(status), requests);
    |Filter(HasStatus(status), requests)|
  }

  /** The status of every request is one of the three, so the counts add up to
      the number of requests. */
  lemma {:induction false} CountsPartition(requests: seq<Request>)
    ensures CountOf(requests, Unread) + CountOf(requests, Read) + CountOf(requests, Responded) == |requests|
  {
    if requests != [] {
      CountsPartition(requests[1..]);
    }
  }

  /** `getStatusCounts`. */
  function GetStatusCounts(requests: seq<Request>): (c: StatusCounts)
    ensures c.unread + c.read + c.responded == |requests|
    ensures c.unread == |FilteredRequests(requests, StatusIs(Unread))|
    ensures c.read == |FilteredRequests(requests, StatusIs(Read))|
    ensures c.responded == |FilteredRequests(requests, StatusIs(Responded))|
  {
    CountsPartition(requests);
    FilterCongruent(HasStatus(Unread), Passes(StatusIs(Unread)), requests);
    FilterCongruent(HasStatus(Read), Passes(StatusIs(Read)), requests);
    FilterCongruent(HasStatus(Responded), Passes(StatusIs(Responded)), requests);
    StatusCounts(CountOf(requests, Unread), CountOf(requests, Read), CountOf(requests, Responded))
  }

  /** `getStatusColor`; its fallback colour is unreachable for the three
      statuses. */
  function GetStatusColor(s: RequestStatus): (c: StatusColor)
    ensures c == Warning <==> s == Unread
    ensures c == Gold <==> s == Read
    ensures c == Success <==> s == Responded
  {
    match s
    case Unread => Warning
    case Read => Gold
    case Responded => Success
  }

  // ---------------------------------------------------------------------------
  // Actions offered on a card

  /** "Mark as Read" is shown only on unread requests. */
  predicate MarkAsReadOffered(s: RequestStatus): (b: bool)
    ensures b <==> Rank(s) < Rank(Read)
  {
    s == Unread
  }

  /** "Mark as Responded" is shown on unread and read requests. */
  predicate MarkAsRespondedOffered(s: RequestStatus): (b: bool)
    ensures b <==> Rank(s) < Rank(Responded)
  {
    s == Unread || s == Read
  }

  /** The transitions the two buttons offer from status `from`: every offered
      transition moves strictly forward, and every forward transition is
      offered. */
  predicate Offered(from: RequestStatus, to: RequestStatus): (b: bool)
    ensures b <==> Rank(from) < Rank(to)
  {
    (to == Read && MarkAsReadOffered(from)) || (to == Responded && MarkAsRespondedOffered(from))
  }

  /** Pressing an offered button on a request of a list with distinct ids moves
      that request forward and leaves every other request unchanged. */
  lemma ButtonMovesForward(requests: seq<Request>, k: nat, to: RequestStatus)
    requires IdsDistinct(requests)
    requires k < |requests| && Offered(requests[k].status, to)
    ensures var r := WithStatus(requests, requests[k].id, to);
      && Rank(requests[k].status) < Rank(r[k].status)
      && (forall i :: 0 <= i < |requests| && i != k ==> r[i] == requests[i])
  {
  }

  /** Without distinct ids the buttons can move a request backward: marking
      one of two requests sharing an id as read turns the other, already
      responded, back to read. */
  lemma DuplicateIdsMoveBackward()
    ensures var requests := [Request("1", "", "", "", "", Unread, ""), Request("1", "", "", "", "", Responded, "")];
      && Offered(requests[0].status, Read)
      && WithStatus(requests, "1", Read)[1].status == Read
      && Rank(WithStatus(requests, "1", Read)[1].status) < Rank(requests[1].status)
  {
  }

  // ---------------------------------------------------------------------------
  // Seed data

  function SeedRequests(): seq<Request> {
    [ Request("1", "Sarah Johnson", "sarah.j@example.com",
              "Please pray for my family during this difficult " + "time. My father is in the hospital and we need " + "strength and healing.",
              "2024-01-15", Unread, "Prayer Request"),
      Request("2", "Michael Chen", "michael.chen@example.com",
              "I would like to know more about baptism and what " + "it means in our faith. Can someone guide me " + "through this?",
              "2024-01-14", Read, "Spiritual Guidance"),
      Request("3", "Emma Davis", "emma.davis@example.com",
              "Thank you for the wonderful sermon last Sunday. " + "It really spoke to my heart and helped me through " + "a tough week.",
              "2024-01-13", Responded, "Feedback"),
      Request("4", "James Wilson", "james.w@example.com",
              "I am struggling with doubt and would appreciate " + "counseling or someone to talk to about my faith " + "journey.",
              "2024-01-12", Unread, "Counseling") ]
  }

  // ---------------------------------------------------------------------------
  // Screen state

  class Inbox {
    var requests: seq<Request>
    var filter: RequestFilter

    /** Request ids are distinct, as in the seed data. */
    ghost predicate Valid()
      reads this
    {
      IdsDistinct(requests)
    }

    constructor ()
      ensures Valid()
      ensures requests == SeedRequests() && filter == AllRequests
    {
      requests := SeedRequests();
      filter := AllRequests;
    }

    /** The cards currently listed. */
    function Visible(): (r: seq<Request>)
      reads this
      ensures forall x :: x in r ==> x in requests
    {
      FilteredRequests(requests, filter)
    }

    /** The counts on the summary cards. */
    function Counts(): (c: StatusCounts)
      reads this
      ensures c.unread + c.read + c.responded == |requests|
    {
      GetStatusCounts(requests)
    }

    method SetFilter(f: RequestFilter)
      modifies this
      ensures filter == f && requests == old(requests)
    {
      filter := f;
    }

    /** `updateStatus(id, newStatus)`; its type admits only read and
        responded as the new status. */
    method UpdateStatus(id: string, newStatus: RequestStatus)
      requires Valid() && newStatus != Unread
      modifies this
      ensures Valid()
      ensures requests == WithStatus(old(requests), id, newStatus)
      ensures filter == old(filter)
    {
      UpdateStatusKeepsIds(requests, id, newStatus);
      requests := WithStatus(requests, id, newStatus);
    }

    /** A button of the card at position `k` of the visible list; the button
        is rendered only when its transition is offered. */
    method Press(k: nat, to: RequestStatus)
      requires Valid() && k < |Visible()| && Offered(Visible()[k].status, to)
      modifies this
      ensures Valid() && filter == old(filter)
      ensures requests == WithStatus(old(requests), old(Visible())[k].id, to)
      ensures forall i :: 0 <= i < |requests| ==> Rank(old(requests)[i].status) <= Rank(requests[i].status)
      ensures exists i :: 0 <= i < |requests| && Rank(old(requests)[i].status) < Rank(requests[i].status)
    {
      var card := Visible()[k];
      var j :| 0 <= j < |requests| && requests[j] == card;
      ButtonMovesForward(requests, j, to);
      UpdateStatus(card.id, to);
      assert Rank(old(requests)[j].status) < Rank(requests[j].status);
    }
  }
}
