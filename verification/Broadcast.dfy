/** One peer's part in the broadcast flood: dedup by broadcast id (`peer_push.py`), the four-branch
    decision on a fresh offer, and the fan-out worker (`peer_replication.py`). */
module Broadcast {

  type Peer = string
  type Url = string

  /** `_BroadcastFanoutJob` of one broadcast: where the path came from, and the hop count to send. */
  datatype Job = Job(path: string, id: string, origin: Peer, hop: int)

  /** What the injected callables answer for one offer: is the path valid locally, is the origin in
      the peer map, does the fetch from it work. */
  datatype Answers = Answers(probe: bool, known: bool, fetched: bool)

  /** What an offer leads to: the HTTP answer, a fetched copy, a placement record, a cascade. */
  datatype Decision = Decision(accepted: bool, copied: bool, recorded: bool, cascades: bool)

  const REFUSED := Decision(false, false, false, false)

  /** `on_broadcast_offer` up to the queue. */
  function Decide(stopped: bool, path: string, a: Answers, hop: int, maxHop: int): Decision {
    if stopped || path == "" then REFUSED
    else if a.probe then Decision(true, false, true, false)
    else if !a.known || !a.fetched then REFUSED
    else Decision(true, true, true, hop < maxHop)
  }

  class Receiver {
    const me: Peer
    const maxHop: int
    var stopped: bool
    var queue: seq<Job>
    /** `seen_broadcast_ids` of this peer's push server. */
    var seen: set<string>

    constructor (me: Peer, maxHop: int)
      ensures this.me == me && this.maxHop == maxHop && !stopped && queue == [] && seen == {}
    {
      this.me, this.maxHop, stopped, queue, seen := me, maxHop, false, [], {};
    }

    /** The locked test-and-insert of the push handler: of any number of arrivals of an id exactly the
        first one reaches the callback. */
    method FirstTime(id: string) returns (isNew: bool)
      modifies `seen
      ensures isNew <==> id !in old(seen)
      ensures seen == old(seen) + {id}
    {
      if id in seen {
        return false;
      }
      seen := seen + {id};
      return true;
    }

    /** `on_broadcast_offer`. `stopsMeanwhile` is a `stop` between the first check and the queue: the
        cascade is dropped. */
    method OnBroadcastOffer(path: string, origin: Peer, id: string, hop: int, a: Answers, stopsMeanwhile: bool)
      returns (accepted: bool, recorded: bool)
      modifies `queue
      ensures var d := Decide(stopped, path, a, hop, maxHop);
        && accepted == d.accepted && recorded == d.recorded
        && queue == old(queue) + if d.cascades && !stopsMeanwhile then [Job(path, id, origin, hop + 1)] else []
      ensures accepted <==> !stopped && path != "" && (a.probe || (a.known && a.fetched))
      ensures recorded == accepted
      ensures accepted && !a.probe && hop < maxHop && !stopsMeanwhile ==> queue == old(queue) + [Job(path, id, origin, hop + 1)]
      ensures !accepted || a.probe || hop >= maxHop || stopsMeanwhile ==> queue == old(queue)
    {
      if stopped {
        return false, false;
      }
      if path == "" {
        return false, false;
      }
      if a.probe {
        return true, true;
      }
      if !a.known {
        return false, false;
      }
      if !a.fetched {
        return false, false;
      }
      if hop >= maxHop {
        return true, true;
      }
      if !stopsMeanwhile {
        queue := queue + [Job(path, id, origin, hop + 1)];
      }
      return true, true;
    }

    /** `_dispatch`: one message to every peer of the map but this one and the origin, no URL twice. */
    method Targets(job: Job, urls: seq<(Peer, Url)>) returns (targets: seq<Url>)
      ensures forall u :: u in targets <==>
        u != "" && exists i :: 0 <= i < |urls| && urls[i].1 == u && urls[i].0 != me && urls[i].0 != job.origin
      ensures forall i, j :: 0 <= i < j < |targets| ==> targets[i] != targets[j]
    {
      targets := [];
      var seenUrls: set<Url> := {};
      for n := 0 to |urls|
        invariant seenUrls == set u | u in targets
        invariant forall u :: u in targets <==>
          u != "" && exists i :: 0 <= i < n && urls[i].1 == u && urls[i].0 != me && urls[i].0 != job.origin
        invariant forall i, j :: 0 <= i < j < |targets| ==> targets[i] != targets[j]
      {
        var (pid, url) := urls[n];
        if url == "" || pid == me {
          continue;
        }
        if pid == job.origin {
          continue;
        }
        if url in seenUrls {
          continue;
        }
        seenUrls := seenUrls + {url};
        targets := targets + [url];
      }
    }
  }
}
