/** Blocks, votes and notarizations of the Simplex protocol, and the functions that only compute results. */
module SimplexTypes {
  import opened Options
  import opened SimplexReconfigTx

  /** A block that a message does not carry reads as height 0 with no parent and no transactions. */
  datatype Block = NoBlock | Block(number: nat, parent: string, content: seq<string>)
  {
    function Height(): nat { if NoBlock? then 0 else number }
    function ParentHash(): string { if NoBlock? then "" else parent }
    function Txs(): seq<string> { if NoBlock? then [] else content }
    /** Also the text that the chain hash digests, up to a closing bar. */
    function Text(): string { Format(Height()) + "|" + ParentHash() + "|" + Join(Txs()) }
    function ID(): string { if NoBlock? then "" else Text() }
    predicate IsDummy() { Block? && Height() > 0 && ParentHash() == "" }
  }

  datatype Vote = Vote(height: nat, block: Block, voter: nat)

  datatype Notarization = Notarization(block: Block, votes: seq<Vote>)

  datatype Proposal = Proposal(height: nat, block: Block, leader: nat)

  /** SHA-256 as the node uses it: on text, and to draw a number from a height. */
  datatype Hashing = Hashing(sum: string -> string, draw: nat -> nat)

  /** The block a timed-out node votes for. */
  function TimeoutBlock(h: nat): Block {
    Block(h, "", [])
  }

  function ChainHash(hashing: Hashing, chain: seq<Option<Notarization>>): string {
    if chain == [] then "genesis"
    else
      var last := chain[|chain| - 1];
      hashing.sum((if last.Some? then last.value.block else NoBlock).Text() + "|")
  }

  function Quorum(n: nat): nat {
    (2 * n + 2) / 3
  }

  function LeaderForHeight(hashing: Hashing, h: nat, members: seq<nat>): nat {
    if members == [] then 0 else members[hashing.draw(h) % |members|]
  }

  /** Elements of `xs` that are in `keep`, in order. */
  function Restrict<T(==)>(xs: seq<T>, keep: set<T>): seq<T> {
    if xs == [] then []
    else Restrict(xs[..|xs| - 1], keep) + if xs[|xs| - 1] in keep then [xs[|xs| - 1]] else []
  }

  /** Elements of `xs` that are not in `drop`, in order. */
  function Without<T(==)>(xs: seq<T>, drop: set<T>): seq<T> {
    if xs == [] then []
    else Without(xs[..|xs| - 1], drop) + if xs[|xs| - 1] in drop then [] else [xs[|xs| - 1]]
  }

  function Elements<T>(xs: seq<T>): set<T> {
    set x | x in xs
  }

  /** Active members and the outbound configuration, both drawn from all configured nodes. */
  datatype Group = Group(all: seq<nat>, cfg: seq<nat>, members: seq<nat>, n: nat)
  {
    predicate Accepts(ids: seq<nat>) {
      ids != [] && Elements(ids) <= Elements(all)
    }

    function ApplyMembership(ids: seq<nat>): Group {
      if Accepts(ids) then Group(all, Restrict(all, Elements(ids)), ids, |ids|) else this
    }

    /** Nodes that join with a new member list. */
    function Joining(ids: seq<nat>): seq<nat> {
      if Accepts(ids) then Without(ids, Elements(members)) else []
    }

    /** One transaction of a block: only a well-formed member list of known nodes has an effect. */
    function ApplyTx(tx: string): Group {
      match Parse(tx)
      case Members(ids) => ApplyMembership(ids)
      case _ => this
    }

    function JoiningTx(tx: string): seq<nat> {
      match Parse(tx)
      case Members(ids) => Joining(ids)
      case _ => []
    }

    function ApplyTxs(txs: seq<string>): Group {
      if txs == [] then this else ApplyTxs(txs[..|txs| - 1]).ApplyTx(txs[|txs| - 1])
    }

    function JoiningTxs(txs: seq<string>): seq<nat> {
      if txs == [] then []
      else
        var before := JoiningTxs(txs[..|txs| - 1]);
        before + Dedup(Without(ApplyTxs(txs[..|txs| - 1]).JoiningTx(txs[|txs| - 1]), Elements(before)))
    }

    function ApplyBlock(b: Block): Group {
      if b.IsDummy() then this else ApplyTxs(b.Txs())
    }
  }

  /** The transaction pool, what this node put into its own proposals, and the callers that wait. */
  datatype TxState = TxState(
    pool: seq<string>,
    proposed: map<nat, seq<string>>,
    waiting: map<string, nat>,
    closed: set<nat>,
    done: set<string>)
  {
    function Add(tx: string): TxState {
      this.(pool := pool + [tx])
    }

    function Register(tx: string, channel: nat): TxState {
      this.(waiting := waiting[tx := channel])
    }

    function Cancel(tx: string): TxState {
      this.(waiting := waiting - {tx})
    }

    /** Marks transactions as finalized and closes the channels registered for them. */
    function Signal(txs: seq<string>): TxState {
      this.(done := done + Elements(txs),
            closed := closed + (set t | t in waiting && t in txs :: waiting[t]),
            waiting := waiting - Elements(txs))
    }

    /** Takes the whole pool for a proposal at height h, without what is already finalized. */
    function Drain(h: nat): (TxState, seq<string>) {
      var txs := Without(pool, done);
      (this.(pool := [], proposed := if txs == [] then proposed else proposed[h := txs]), txs)
    }

    /** A dummy block won at h: what this node had proposed there goes back to the front of the pool. */
    function Rescue(h: nat): TxState {
      if h in proposed then this.(pool := proposed[h] + pool, proposed := proposed - {h}) else this
    }

    function Settle(h: nat): TxState {
      this.(proposed := proposed - {h})
    }
  }
}
