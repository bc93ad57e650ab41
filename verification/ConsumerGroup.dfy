/**
 * A Redis consumer group over a stream that is only appended to, as the audit consumer uses it
 * (src/audit/infrastructure/messaging/redis-streams-consumer.service.ts). An entry is named by its
 * position in the stream.
 */
module ConsumerGroup {

  /**
   * `delivered` counts the entries XREADGROUP has handed out, `pending` maps each entry awaiting its
   * acknowledgement to its delivery count, `acked` remembers the entries XACK removed from `pending`.
   */
  datatype Group = Group(delivered: nat, pending: map<nat, nat>, acked: set<nat>)

  const EMPTY := Group(0, map[], {})

  /** The delivery count XREADGROUP gives to an entry it hands out. */
  function FirstDelivery(p: nat): nat {
    1
  }

  /** XREADGROUP ... COUNT count ... `>`. */
  function Read(g: Group, length: nat, count: nat): Group
  {
    var upTo := if g.delivered + count <= length then g.delivered + count
                else if g.delivered <= length then length else g.delivered;
    g.(delivered := upTo, pending := g.pending + map p: nat | g.delivered <= p < upTo :: FirstDelivery(p))
  }

  /** XCLAIM of one entry: a delivery more, or nothing when the entry is no longer pending. */
  function Claim(g: Group, p: nat): Group {
    if p in g.pending then g.(pending := g.pending[p := g.pending[p] + 1]) else g
  }

  /** XACK of one entry. */
  function Ack(g: Group, p: nat): Group {
    if p in g.pending then g.(pending := g.pending - {p}, acked := g.acked + {p}) else g
  }

  /** The group accounts for every entry: undelivered, pending or acknowledged, and only one of them. */
  ghost predicate Partitions(g: Group, length: nat) {
    && g.delivered <= length
    && (forall p: nat :: p < g.delivered <==> p in g.pending || p in g.acked)
    && (forall p: nat :: !(p in g.pending && p in g.acked))
  }

  lemma PartitionsKept(g: Group, length: nat, length': nat, count: nat, p: nat)
    requires Partitions(g, length) && length <= length'
    ensures Partitions(g, length')
    ensures Partitions(Read(g, length, count), length)
    ensures Partitions(Claim(g, p), length)
    ensures Partitions(Ack(g, p), length)
  {
  }

  /**
   * XREADGROUP hands out the next entries, at most `count` of them, each for the first time; XCLAIM is one
   * delivery more; XACK ends the deliveries of its entry.
   */
  lemma DeliveriesCounted(g: Group, length: nat, count: nat, p: nat, q: nat)
    requires Partitions(g, length)
    ensures var r := Read(g, length, count);
            && r.delivered - g.delivered == (if count <= length - g.delivered then count else length - g.delivered)
            && (q in r.pending <==> q in g.pending || g.delivered <= q < r.delivered)
            && (q in g.pending ==> r.pending[q] == g.pending[q])
            && (g.delivered <= q < r.delivered ==> r.pending[q] == 1) && r.acked == g.acked
    ensures p in g.pending ==> Claim(g, p).pending == g.pending[p := g.pending[p] + 1]
    ensures p !in g.pending ==> Claim(g, p) == g && Ack(g, p) == g
    ensures p !in Ack(g, p).pending
    ensures q != p && q in g.pending ==> q in Ack(g, p).pending && Ack(g, p).pending[q] == g.pending[q]
    ensures Ack(g, p).delivered == g.delivered && (p in g.pending ==> Ack(g, p).acked == g.acked + {p})
  {
  }
}
