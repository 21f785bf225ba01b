/**
 The three places that count or detect nvidia.com/gpu: the patcher
 (GPUCountFromPod), the CLI (gpusPerPod) and the admission webhook
 (podRequestsGPU).
 */
module Gpu {
  import opened Options

  /** A resource quantity in thousandths. */
  datatype Quantity = Quantity(milli: nat) {
    /** Quantity.Value() rounds up. */
    function Value(): nat {
      (milli + 999) / 1000
    }

    /** Cmp against "0". */
    predicate Positive() {
      milli > 0
    }
  }

  /** The GPU limit and request of a container; None when its list does not name the resource. */
  datatype Container = Container(limit: Option<Quantity>, request: Option<Quantity>)

  /** The next whole number of GPUs. */
  lemma ValueRoundsUp(q: Quantity)
    ensures q.milli <= 1000 * q.Value() < q.milli + 1000
  {
  }

  function Amount(q: Option<Quantity>): nat {
    if q.Some? then q.value.Value() else 0
  }

  function LimitOrRequest(c: Container): nat {
    if Amount(c.limit) == 0 then Amount(c.request) else Amount(c.limit)
  }

  function Sum(containers: seq<Container>, f: Container -> nat): nat {
    if containers == [] then 0
    else Sum(containers[..|containers| - 1], f) + f(containers[|containers| - 1])
  }

  /** The patcher's count: init containers matter only when the main containers use no GPU. */
  function PodCount(containers: seq<Container>, initContainers: seq<Container>): nat {
    var main := Sum(containers, LimitOrRequest);
    if main > 0 then main else Sum(initContainers, LimitOrRequest)
  }

  method GPUCountFromPod(containers: seq<Container>, initContainers: seq<Container>) returns (total: nat)
    ensures total == PodCount(containers, initContainers)
  {
    total := 0;
    for i := 0 to |containers|
      invariant total == Sum(containers[..i], LimitOrRequest)
    {
      var n := Amount(containers[i].limit);
      if n == 0 {
        n := Amount(containers[i].request);
      }
      total := total + n;
      assert containers[..i + 1][..i] == containers[..i];
    }
    assert containers[..|containers|] == containers;
    if total > 0 {
      return;
    }
    for i := 0 to |initContainers|
      invariant total == Sum(initContainers[..i], LimitOrRequest)
    {
      var n := Amount(initContainers[i].limit);
      if n == 0 {
        n := Amount(initContainers[i].request);
      }
      total := total + n;
      assert initContainers[..i + 1][..i] == initContainers[..i];
    }
    assert initContainers[..|initContainers|] == initContainers;
  }

  function LimitPlusRequest(c: Container): nat {
    Amount(c.limit) + Amount(c.request)
  }

  /** The CLI adds limits and requests of all containers. */
  method GPUsPerPod(containers: seq<Container>, initContainers: seq<Container>) returns (total: nat)
    ensures total == Sum(containers, LimitPlusRequest) + Sum(initContainers, LimitPlusRequest)
  {
    total := 0;
    for i := 0 to |containers|
      invariant total == Sum(containers[..i], LimitPlusRequest)
    {
      total := total + Amount(containers[i].limit) + Amount(containers[i].request);
      assert containers[..i + 1][..i] == containers[..i];
    }
    assert containers[..|containers|] == containers;
    for i := 0 to |initContainers|
      invariant total == Sum(containers, LimitPlusRequest) + Sum(initContainers[..i], LimitPlusRequest)
    {
      total := total + Amount(initContainers[i].limit) + Amount(initContainers[i].request);
      assert initContainers[..i + 1][..i] == initContainers[..i];
    }
    assert initContainers[..|initContainers|] == initContainers;
  }

  predicate ContainerRequestsGPU(c: Container) {
    || (c.request.Some? && c.request.value.Positive())
    || (c.limit.Some? && c.limit.value.Positive())
  }

  predicate PodRequestsGPU(containers: seq<Container>, initContainers: seq<Container>) {
    || (exists c :: c in initContainers && ContainerRequestsGPU(c))
    || (exists c :: c in containers && ContainerRequestsGPU(c))
  }

  lemma {:induction false} SumPositive(containers: seq<Container>, f: Container -> nat)
    requires forall c :: c in containers ==> (f(c) > 0 <==> ContainerRequestsGPU(c))
    ensures Sum(containers, f) > 0 <==> exists c :: c in containers && ContainerRequestsGPU(c)
  {
    if containers != [] {
      var front, last := containers[..|containers| - 1], containers[|containers| - 1];
      assert containers == front + [last];
      SumPositive(front, f);
      assert forall c :: c in containers <==> c in front || c == last;
    }
  }

  lemma {:induction false} SumLess(containers: seq<Container>)
    ensures Sum(containers, LimitOrRequest) <= Sum(containers, LimitPlusRequest)
  {
    if containers != [] {
      SumLess(containers[..|containers| - 1]);
    }
  }

  /** Patcher, CLI and webhook agree on which pods use GPUs, and the patcher never counts more than the CLI. */
  lemma CountsAgree(containers: seq<Container>, initContainers: seq<Container>)
    ensures var cli := Sum(containers, LimitPlusRequest) + Sum(initContainers, LimitPlusRequest);
            && (PodCount(containers, initContainers) > 0 <==> cli > 0)
            && (PodCount(containers, initContainers) > 0 <==> PodRequestsGPU(containers, initContainers))
            && PodCount(containers, initContainers) <= cli
  {
    SumPositive(containers, LimitOrRequest);
    SumPositive(containers, LimitPlusRequest);
    SumPositive(initContainers, LimitOrRequest);
    SumPositive(initContainers, LimitPlusRequest);
    SumLess(containers);
    SumLess(initContainers);
  }
}
