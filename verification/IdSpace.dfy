/** Blocks of ids: the coordinator gives each agent one, the agent divides it among its workers. */
module IdSpace {

  const PER_WORKER: int := 100_000
  const PER_AGENT: int := PER_WORKER * 100

  function AgentBase(agentIndex: int): (r: int) {
    (if agentIndex < 0 then 0 else agentIndex) * PER_AGENT
  }

  /** A worker index beyond the agent's block wraps around inside it. */
  function WorkerBase(agentBase: int, workerIndex: int): (r: int) {
    agentBase + (if workerIndex < 0 then 0 else workerIndex) * PER_WORKER % PER_AGENT
  }

  /** The id a worker gives out `k` allocations after its base. */
  function IdOf(agent: nat, worker: nat, k: nat): (r: int) {
    WorkerBase(AgentBase(agent), worker) + k
  }

  lemma WrapWorker(worker: nat)
    ensures worker * PER_WORKER % PER_AGENT == worker % 100 * PER_WORKER
  {
    var q := worker / 100;
    assert worker * PER_WORKER == q * PER_AGENT + worker % 100 * PER_WORKER;
  }

  /** A worker's block lies inside its agent's, whatever its index. */
  lemma StaysInAgent(agent: nat, worker: nat, k: nat)
    requires k < PER_WORKER
    ensures AgentBase(agent) <= IdOf(agent, worker, k) < AgentBase(agent + 1)
    ensures IdOf(agent, worker, k) == agent * PER_AGENT + worker % 100 * PER_WORKER + k
  {
    WrapWorker(worker);
  }

  /** Positions in a table of blocks are equal only field by field. */
  lemma Positions(a: nat, w: nat, k: nat, b: nat, v: nat, l: nat)
    requires w < 100 && v < 100 && k < PER_WORKER && l < PER_WORKER
    requires a * PER_AGENT + w * PER_WORKER + k == b * PER_AGENT + v * PER_WORKER + l
    ensures a == b && w == v && k == l
  {
    assert a == b;
  }

  /**
   Two allocations get the same id exactly when agent, allocation number and worker index modulo
   one hundred are the same: within an agent of up to a hundred workers ids never collide.
   */
  lemma SameIdIff(a: nat, w: nat, k: nat, b: nat, v: nat, l: nat)
    requires k < PER_WORKER && l < PER_WORKER
    ensures IdOf(a, w, k) == IdOf(b, v, l) <==> a == b && w % 100 == v % 100 && k == l
  {
    StaysInAgent(a, w, k);
    StaysInAgent(b, v, l);
    Fields(a, w % 100, k, b, v % 100, l, IdOf(a, w, k), IdOf(b, v, l));
  }

  lemma Fields(a: nat, w: nat, k: nat, b: nat, v: nat, l: nat, x: int, y: int)
    requires w < 100 && v < 100 && k < PER_WORKER && l < PER_WORKER
    requires x == a * PER_AGENT + w * PER_WORKER + k && y == b * PER_AGENT + v * PER_WORKER + l
    ensures x == y <==> a == b && w == v && k == l
  {
    if x == y {
      Positions(a, w, k, b, v, l);
    }
  }

  lemma HundredWorkersApart(a: nat, w: nat, k: nat, b: nat, v: nat, l: nat)
    requires k < PER_WORKER && l < PER_WORKER && w < 100 && v < 100 && (a != b || w != v)
    ensures IdOf(a, w, k) != IdOf(b, v, l)
  {
    SameIdIff(a, w, k, b, v, l);
  }
}
