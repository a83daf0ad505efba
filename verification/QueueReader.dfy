/** Bounded reads from an AgentWS queue: each read has its own limit, and all reads
    and scans of one reader share two budgets. */
module QueueReaders {

  type Byte = bv8

  /** A file's bytes as returned, before decoding and the truncation marker.
      `fromEnd` is the marker's side. */
  datatype ReadResult =
    | Read(data: seq<Byte>, size: nat, truncated: bool, fromEnd: bool)
    | BadRequest
    | OverBudget

  datatype Request = Request(content: seq<Byte>, maxBytes: int, tail: bool)

  function Min(a: int, b: int): int {
    if a < b then a else b
  }

  /** What a read of a stable file costs: one byte past the limit is fetched to see
      that there is more, except from the end. */
  function Charge(size: nat, maxBytes: nat, tail: bool): nat {
    if tail && size > maxBytes then maxBytes else Min(size, maxBytes + 1)
  }

  /** The bytes a reader asked for this should get. */
  function Excerpt(content: seq<Byte>, maxBytes: nat, tail: bool): seq<Byte> {
    if |content| <= maxBytes then content
    else if tail then content[|content| - maxBytes..]
    else content[..maxBytes]
  }

  predicate Exact(q: Request, r: ReadResult)
    requires r.Read?
  {
    && q.maxBytes >= 0 && r.data == Excerpt(q.content, q.maxBytes, q.tail)
    && r.size == |q.content| && (r.truncated <==> |q.content| > q.maxBytes)
  }

  class ConfinedQueueReader {
    const maxEntries: nat
    const maxFileBytes: nat
    const maxReadBytes: nat
    var entriesSeen: nat
    var bytesRead: nat

    predicate Valid()
      reads this
    {
      bytesRead <= maxReadBytes && entriesSeen <= maxEntries
    }

    constructor (maxEntries: nat, maxFileBytes: nat, maxReadBytes: nat)
      ensures Valid() && bytesRead == 0 && entriesSeen == 0
      ensures this.maxEntries == maxEntries && this.maxFileBytes == maxFileBytes && this.maxReadBytes == maxReadBytes
    {
      this.maxEntries, this.maxFileBytes, this.maxReadBytes := maxEntries, maxFileBytes, maxReadBytes;
      bytesRead, entriesSeen := 0, 0;
    }

    /** `read_file`.  `size` is what `fstat` said and `content` what the reads see;
        for a stable file they agree, and then a read that succeeds is exact. */
    method ReadFile(size: nat, content: seq<Byte>, maxBytes: int, tail: bool) returns (r: ReadResult)
      requires Valid()
      modifies this`bytesRead
      ensures Valid()
      ensures r.BadRequest? <==> !(0 <= maxBytes <= maxFileBytes)
      ensures !r.Read? ==> bytesRead == old(bytesRead)
      ensures r.Read? ==> |r.data| <= maxBytes
      ensures size == |content| && 0 <= maxBytes <= maxFileBytes ==>
                (r.Read? <==> old(bytesRead) + Charge(size, maxBytes, tail) <= maxReadBytes)
      ensures size == |content| && r.Read? ==>
                && r.data == Excerpt(content, maxBytes, tail)
                && r.size == |content| && (r.truncated <==> |content| > maxBytes)
                && (r.fromEnd <==> tail && r.truncated)
                && bytesRead == old(bytesRead) + Charge(size, maxBytes, tail)
    {
      if maxBytes < 0 || maxBytes > maxFileBytes {
        return BadRequest;
      }
      var remaining: nat := maxReadBytes - bytesRead;
      var data, truncated, prefix;
      if tail && size > maxBytes {
        var start := Min(size - maxBytes, |content|);
        data := content[start..][..Min(Min(maxBytes, remaining + 1), |content| - start)];
        truncated, prefix := true, true;
      } else {
        data := content[..Min(Min(maxBytes + 1, remaining + 1), |content|)];
        truncated, prefix := size > maxBytes || |data| > maxBytes, false;
      }
      if |data| > remaining {
        return OverBudget;
      }
      bytesRead := bytesRead + |data|;
      data := data[..Min(maxBytes, |data|)];
      r := Read(data, size, truncated, prefix);
    }

    /** `_entries`: every entry is charged, and the first one over the budget ends
        the scan with an error. */
    method ScanEntries(names: seq<string>) returns (seen: seq<string>, ok: bool)
      requires Valid()
      modifies this`entriesSeen
      ensures Valid()
      ensures ok <==> old(entriesSeen) + |names| <= maxEntries
      ensures ok ==> seen == names
      ensures entriesSeen == Min(old(entriesSeen) + |names|, maxEntries)
    {
      seen := [];
      for i := 0 to |names|
        invariant seen == names[..i] && entriesSeen == old(entriesSeen) + i <= maxEntries
      {
        if entriesSeen >= maxEntries {
          return seen, false;
        }
        entriesSeen := entriesSeen + 1;
        seen := seen + [names[i]];
      }
      ok := true;
    }

    /** Any sequence of reads of stable files: a request out of range is refused and
        what would not fit is an error, neither at any cost; what succeeds is exact,
        and the budget is never passed. */
    method ReadAll(requests: seq<Request>) returns (results: seq<ReadResult>)
      requires Valid()
      modifies this`bytesRead
      ensures Valid() && |results| == |requests|
      ensures bytesRead == Spent(old(bytesRead), Limits(maxFileBytes, maxReadBytes), requests)
      ensures forall i | 0 <= i < |results| ::
                Correct(old(bytesRead), Limits(maxFileBytes, maxReadBytes), requests, i, results[i])
    {
      results := [];
      ghost var start, limits := bytesRead, Limits(maxFileBytes, maxReadBytes);
      for i := 0 to |requests|
        invariant Valid() && |results| == i
        invariant bytesRead == Spent(start, limits, requests[..i])
        invariant forall k | 0 <= k < i :: Correct(start, limits, requests, k, results[k])
      {
        var r := ReadFile(|requests[i].content|, requests[i].content, requests[i].maxBytes, requests[i].tail);
        assert Correct(start, limits, requests, i, r);
        SpentNext(start, limits, requests, i);
        results := results + [r];
      }
      assert requests[..|requests|] == requests;
    }
  }

  /** The limits of one reader: the largest read it serves, and the shared budget. */
  datatype Limits = Limits(file: nat, budget: nat)

  predicate InRange(limits: Limits, q: Request) { 0 <= q.maxBytes <= limits.file }

  function Cost(limits: Limits, q: Request): nat {
    if InRange(limits, q) then Charge(|q.content|, q.maxBytes, q.tail) else 0
  }

  function Total(limits: Limits, requests: seq<Request>): nat {
    if requests == [] then 0 else Total(limits, requests[..|requests| - 1]) + Cost(limits, requests[|requests| - 1])
  }

  /** Bytes charged after a sequence of reads: each that fits is charged. */
  function Spent(start: nat, limits: Limits, requests: seq<Request>): (spent: nat)
    requires start <= limits.budget
    ensures start <= spent <= limits.budget
  {
    if requests == [] then start
    else
      var before := Spent(start, limits, requests[..|requests| - 1]);
      var cost := Cost(limits, requests[|requests| - 1]);
      if before + cost <= limits.budget then before + cost else before
  }

  /** Read `i` of the sequence fits in what the earlier ones left. */
  predicate Affordable(start: nat, limits: Limits, requests: seq<Request>, i: nat)
    requires start <= limits.budget && i < |requests|
  {
    Spent(start, limits, requests[..i]) + Cost(limits, requests[i]) <= limits.budget
  }

  /** Read `i` is refused exactly when it is out of range; otherwise it succeeds
      exactly when it is affordable, and then with the exact excerpt. */
  predicate Correct(start: nat, limits: Limits, requests: seq<Request>, i: nat, r: ReadResult)
    requires start <= limits.budget && i < |requests|
  {
    && (r.BadRequest? <==> !InRange(limits, requests[i]))
    && (r.Read? <==> InRange(limits, requests[i]) && Affordable(start, limits, requests, i))
    && (r.Read? ==> Exact(requests[i], r))
  }

  lemma SpentNext(start: nat, limits: Limits, requests: seq<Request>, i: nat)
    requires start <= limits.budget && i < |requests|
    ensures Spent(start, limits, requests[..i + 1]) ==
            if Affordable(start, limits, requests, i)
            then Spent(start, limits, requests[..i]) + Cost(limits, requests[i])
            else Spent(start, limits, requests[..i])
  {
    assert requests[..i + 1][..i] == requests[..i];
  }

  /** A whole sequence of reads fits exactly when its total cost is within the
      budget. */
  lemma {:induction false} AllAffordableIff(start: nat, limits: Limits, requests: seq<Request>)
    requires start <= limits.budget
    ensures (forall i | 0 <= i < |requests| :: Affordable(start, limits, requests, i)) <==>
            start + Total(limits, requests) <= limits.budget
    ensures start + Total(limits, requests) <= limits.budget ==>
              Spent(start, limits, requests) == start + Total(limits, requests)
  {
    if requests != [] {
      var n := |requests| - 1;
      var most := requests[..n];
      AllAffordableIff(start, limits, most);
      assert forall i | 0 <= i < n :: requests[..i] == most[..i];
      assert forall i | 0 <= i < n :: Affordable(start, limits, requests, i) <==> Affordable(start, limits, most, i);
      if start + Total(limits, requests) <= limits.budget {
        assert Affordable(start, limits, requests, n);
      } else if start + Total(limits, most) <= limits.budget {
        assert !Affordable(start, limits, requests, n);
      }
    }
  }
}
