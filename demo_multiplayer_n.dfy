/** The group auction demo (`demo_multiplayer_N/__init__.py`): a group shares
    one auction record holding the top and the second bid and who placed
    them; a bid is accepted when no top bid exists yet or when it beats the
    top bid, and every accepted bid sends the whole record back. The
    `live_multiplayer` protocol that delivers the messages is not part of
    this model, and currency amounts are whole numbers. */
module Auction {
  import opened Wrappers
  import opened Json
  import opened Text

  /** `C.BID_INCREMENT` */
  const BID_INCREMENT: int := 10
  /** `C.JACKPOT` (declared, never read by the page) */
  const JACKPOT: int := 100

  /** The auction record; the bidders are `id_in_group` numbers, `None`
      until set. */
  datatype State = State(
    isCompleted: bool,
    topBid: int,
    topBidder: Option<int>,
    secondBid: int,
    secondBidder: Option<int>)

  /** `AuctionPage.encode_trial(auction)` as a record of its five keys. */
  datatype Encoded = Encoded(topBid: int, topBidder: string, secondBid: int, secondBidder: string, bid: int)

  datatype Reply =
    | Invalid(error: string)
    | Update(update: Encoded)

  datatype Status = Status(playerRank: Option<int>, playerActive: bool)

  /** `Auction.create(group=group)`: both bids 0, no bidders. */
  const INITIAL: State := State(false, 0, None, 0, None)

  /** Python's `str()` of an optional integer. */
  function OptionText(o: Option<int>): string {
    match o
    case None => "None"
    case Some(n) => IntToString(n)
  }

  /** `AuctionPage.encode_trial(auction)` */
  function Encode(a: State): (e: Encoded)
    ensures e.topBid == a.topBid && e.secondBid == a.secondBid
    ensures e.bid == a.topBid + BID_INCREMENT
    ensures e.topBidder == "Player " + OptionText(a.topBidder)
    ensures e.secondBidder == "Player " + OptionText(a.secondBidder)
  {
    Encoded(a.topBid, "Player " + OptionText(a.topBidder), a.secondBid, "Player " + OptionText(a.secondBidder), a.topBid + BID_INCREMENT)
  }

  /** The bid carried by `response['input']`: a number, or a boolean as
      Python's `int` subclass. */
  function BidOf(v: Value): Result<int> {
    match v
    case Num(n) => Ok(n)
    case Bool(b) => Ok(if b then 1 else 0)
    case _ => Err(Unsupported)
  }

  /** Whether `bid` beats the record: the first bid (`top_bid` falsy) always
      does, later ones must exceed the top bid. */
  predicate Beats(a: State, bid: int) {
    a.topBid == 0 || bid > a.topBid
  }

  /** `AuctionPage.validate_response(auction, player, response, _)` for the
      player with `id_in_group` `pid`. */
  function Respond(a: State, pid: int, response: Dict): (State, Result<Reply>) {
    if "input" !in response then (a, Err(KeyError))
    else match BidOf(response["input"])
      case Err(e) => (a, Err(e))
      case Ok(bid) =>
        if !Beats(a, bid) then (a, Ok(Invalid("invalid bid")))
        else
          var a1 := if a.topBid != 0 then a.(secondBid := a.topBid, secondBidder := a.topBidder) else a;
          var a2 := a1.(topBid := bid, topBidder := Some(pid));
          (a2, Ok(Update(Encode(a2))))
  }

  /** A bid is accepted exactly when it beats the record; a refused or
      unreadable bid changes nothing; an accepted one makes the bidder the
      top bidder, moves an existing top bid and its bidder to second place
      (otherwise leaves second place alone) and answers with the new
      record. */
  lemma RespondMeans(a: State, pid: int, response: Dict)
    ensures var (a1, r) := Respond(a, pid, response);
      (r.Err? <==> "input" !in response || BidOf(response["input"]).Err?) &&
      ("input" !in response ==> r == Err(KeyError)) &&
      (r.Ok? ==>
        var bid := BidOf(response["input"]).value;
        (r.value.Update? <==> Beats(a, bid)) &&
        (r.value.Invalid? ==> r.value.error == "invalid bid")) &&
      (!(r.Ok? && r.value.Update?) ==> a1 == a) &&
      (r.Ok? && r.value.Update? ==>
        var bid := BidOf(response["input"]).value;
        a1.topBid == bid && a1.topBidder == Some(pid) && a1.isCompleted == a.isCompleted &&
        (a.topBid != 0 ==> a1.secondBid == a.topBid && a1.secondBidder == a.topBidder) &&
        (a.topBid == 0 ==> a1.secondBid == a.secondBid && a1.secondBidder == a.secondBidder) &&
        r.value.update == Encode(a1) && r.value.update.bid == bid + BID_INCREMENT)
  {
  }

  /** Once a top bid exists, an accepted bid is strictly higher than the
      previous top bid. */
  lemma AcceptedBidRaises(a: State, pid: int, response: Dict)
    requires a.topBid != 0
    ensures var (a1, r) := Respond(a, pid, response);
      r.Ok? && r.value.Update? ==> a1.topBid > a.topBid
  {
  }

  /** `AuctionPage.get_status(auction, player)` */
  function GetStatus(a: State, pid: int): Status {
    var rank := if a.topBidder == Some(pid) then Some(1) else if a.secondBidder == Some(pid) then Some(2) else None;
    Status(rank, rank != Some(1))
  }

  /** The top bidder ranks first and waits; the second bidder, unless also
      on top, ranks second; anyone else has no rank; everyone but the top
      bidder may bid. */
  lemma StatusMeans(a: State, pid: int)
    ensures var s := GetStatus(a, pid);
      (s.playerRank == Some(1) <==> a.topBidder == Some(pid)) &&
      (s.playerRank == Some(2) <==> a.topBidder != Some(pid) && a.secondBidder == Some(pid)) &&
      (s.playerRank.None? <==> a.topBidder != Some(pid) && a.secondBidder != Some(pid)) &&
      (s.playerActive <==> a.topBidder != Some(pid))
  {
  }

  /** The player whose bid was just accepted is the top bidder and may not
      bid again until outbid. */
  lemma BidderWaits(a: State, pid: int, response: Dict)
    ensures var (a1, r) := Respond(a, pid, response);
      r.Ok? && r.value.Update? ==> GetStatus(a1, pid) == Status(Some(1), false)
  {
  }

  /** The ordering of the record while bids are not negative: both bids
      are at least 0, a second bid below the top one, and each nonzero bid
      has its bidder. */
  predicate Wf(a: State) {
    a.topBid >= 0 && a.secondBid >= 0 &&
    (a.secondBid > 0 ==> a.topBid > a.secondBid) &&
    (a.topBid > 0 ==> a.topBidder.Some?) &&
    (a.secondBid > 0 ==> a.secondBidder.Some?)
  }

  lemma InitialWf()
    ensures Wf(INITIAL) && GetStatus(INITIAL, 1) == Status(None, true)
  {
  }

  /** A bid that is not negative keeps the record ordered. */
  lemma RespondKeepsWf(a: State, pid: int, response: Dict)
    requires Wf(a)
    requires "input" in response && BidOf(response["input"]).Ok? ==> BidOf(response["input"]).value >= 0
    ensures Wf(Respond(a, pid, response).0)
  {
  }

  /** A negative first bid can leave a second bid above the top one: bids
      of -5, 0 and -100 from three players give top -100 and second -5. */
  lemma NegativeBidsUnorder()
    ensures var a1 := Respond(INITIAL, 1, map["input" := Num(-5)]).0;
      var a2 := Respond(a1, 2, map["input" := Num(0)]).0;
      var a3 := Respond(a2, 3, map["input" := Num(-100)]).0;
      a3.topBid == -100 && a3.secondBid == -5 && a3.secondBid > a3.topBid
  {
  }

  class Auction {
    var isCompleted: bool
    var topBid: int
    var topBidder: Option<int>
    var secondBid: int
    var secondBidder: Option<int>

    function Snapshot(): State reads this {
      State(isCompleted, topBid, topBidder, secondBid, secondBidder)
    }

    /** `creating_session` for one group. */
    constructor()
      ensures Snapshot() == INITIAL && Wf(Snapshot())
    {
      isCompleted := false;
      topBid := 0;
      topBidder := None;
      secondBid := 0;
      secondBidder := None;
    }

    /** `AuctionPage.validate_response` for the player `pid`. */
    method ValidateResponse(pid: int, response: Dict) returns (r: Result<Reply>)
      modifies this
      ensures (Snapshot(), r) == Respond(old(Snapshot()), pid, response)
    {
      if "input" !in response {
        return Err(KeyError);
      }
      var bid := BidOf(response["input"]);
      if bid.Err? {
        return Err(bid.error);
      }
      if topBid != 0 && bid.value <= topBid {
        return Ok(Invalid("invalid bid"));
      }
      if topBid != 0 {
        secondBid := topBid;
        secondBidder := topBidder;
      }
      topBid := bid.value;
      topBidder := Some(pid);
      return Ok(Update(Encode(Snapshot())));
    }
  }
}
