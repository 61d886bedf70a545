/** Acceptor and learner of the Multi-Paxos protocol. */
module PaxosServer {

  /** State of one instance. Number 0 and the empty string mean "none". */
  datatype Instance = Instance(promised: nat, acceptedNum: nat, acceptedValue: string, learned: string)
  {
    /** Phase 1: promise only a higher number, and report what was accepted. */
    function OnPrepare(num: nat): (Instance, Reply) {
      if num > promised then (this.(promised := num), Promised(acceptedNum, acceptedValue))
      else (this, Rejected)
    }

    /** Phase 2: accept anything at or above the promise. */
    function OnAccept(num: nat, value: string): (Instance, bool, nat) {
      if num >= promised then (this.(promised := num, acceptedNum := num, acceptedValue := value), true, num)
      else (this, false, promised)
    }

    /** Phase 3: the first value learned stays. */
    function OnLearn(value: string): Instance {
      if learned == "" then this.(learned := value) else this
    }
  }

  const FRESH := Instance(0, 0, "", "")

  /** Answer to a prepare, as the proposer sees it; an error or a lost reply is Lost. */
  datatype Reply = Promised(num: nat, value: string) | Rejected | Lost

  function InstanceAt(instances: map<nat, Instance>, i: nat): Instance {
    if i in instances then instances[i] else FRESH
  }

  class Server {
    var instances: map<nat, Instance>

    constructor ()
      ensures instances == map[]
    {
      instances := map[];
    }

    method GetInstance(i: nat) returns (st: Instance)
      modifies this
      ensures st == InstanceAt(old(instances), i) && instances == old(instances)[i := st]
    {
      if i in instances {
        assert instances == instances[i := instances[i]];
        return instances[i];
      }
      st := FRESH;
      instances := instances[i := st];
    }

    method Prepare(i: nat, num: nat) returns (reply: Reply)
      modifies this
      ensures instances == old(instances)[i := InstanceAt(old(instances), i).OnPrepare(num).0]
      ensures reply == InstanceAt(old(instances), i).OnPrepare(num).1
    {
      var st := GetInstance(i);
      if num > st.promised {
        instances := instances[i := st.(promised := num)];
        return Promised(st.acceptedNum, st.acceptedValue);
      }
      return Rejected;
    }

    method Accept(i: nat, num: nat, value: string) returns (accepted: bool, proposalNum: nat)
      modifies this
      ensures (InstanceAt(instances, i), accepted, proposalNum) == InstanceAt(old(instances), i).OnAccept(num, value)
      ensures instances == old(instances)[i := InstanceAt(instances, i)]
    {
      var st := GetInstance(i);
      if num >= st.promised {
        instances := instances[i := st.(promised := num, acceptedNum := num, acceptedValue := value)];
        return true, num;
      }
      return false, st.promised;
    }

    method Learn(i: nat, value: string)
      modifies this
      ensures instances == old(instances)[i := InstanceAt(old(instances), i).OnLearn(value)]
    {
      var st := GetInstance(i);
      if st.learned == "" {
        instances := instances[i := st.(learned := value)];
      }
    }
  }

  // ---- Learning --------------------------------------------------------------------------------

  function LearnAll(st: Instance, values: seq<string>): Instance {
    if values == [] then st else LearnAll(st, values[..|values| - 1]).OnLearn(values[|values| - 1])
  }

  ghost predicate SpeaksFirst(values: seq<string>, k: int) {
    0 <= k < |values| && values[k] != "" && forall j :: 0 <= j < k ==> values[j] == ""
  }

  /** Whatever values come, the first one that says anything stays, and nothing else of the record changes. */
  lemma {:induction false} FirstLearnedStays(st: Instance, values: seq<string>)
    ensures LearnAll(st, values) == st.(learned := LearnAll(st, values).learned)
    ensures st.learned != "" ==> LearnAll(st, values).learned == st.learned
    ensures st.learned == "" ==> forall k :: SpeaksFirst(values, k) ==> LearnAll(st, values).learned == values[k]
    ensures st.learned == "" && (forall k :: 0 <= k < |values| ==> values[k] == "")
            ==> LearnAll(st, values).learned == ""
  {
    if values != [] {
      var last := |values| - 1;
      FirstLearnedStays(st, values[..last]);
      assert forall k :: 0 <= k < last ==> values[..last][k] == values[k];
      assert forall k :: k < last ==> (SpeaksFirst(values, k) <==> SpeaksFirst(values[..last], k));
    }
  }
}
