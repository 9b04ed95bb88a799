/**
  The rotating search for a voicemail RTP port: one attempt per port of the
  inclusive range, starting where a shared u32 counter points.
 */
module VoicemailPorts {
  import opened Options
  import opened RelayPorts

  /** The `attempt`-th port a search that starts at offset `start` looks at. */
  function Candidate(min: nat, width: nat, start: nat, attempt: nat): nat
    requires width > 0
  {
    min + (start + attempt) % width
  }

  /** Every port of the range is a candidate. */
  lemma CandidateFor(min: nat, width: nat, start: nat, port: nat) returns (attempt: nat)
    requires start < width && min <= port < min + width
    ensures attempt < width && Candidate(min, width, start, attempt) == port
  {
    var o := port - min;
    attempt := if o >= start then o - start else o + width - start;
    ModUnique(start + attempt, width, if o >= start then 0 else 1, o);
  }

  /** `port` is the first bindable port in rotation order, found by attempt `k`. */
  predicate FirstAt(min: nat, max: nat, counter: nat, taken: set<nat>, k: nat, port: nat)
    requires min <= max
  {
    var width := max - min + 1;
    && k < width && port == Candidate(min, width, counter % width, k) && port !in taken
    && forall j :: 0 <= j < k ==> Candidate(min, width, counter % width, j) in taken
  }

  class VoicemailMedia {
    const minPort: nat
    const maxPort: nat
    var portCounter: nat

    constructor (min: nat, max: nat)
      ensures minPort == min && maxPort == max && portCounter == 0
    {
      minPort, maxPort, portCounter := min, max, 0;
    }

    /** `taken` are the ports that cannot be bound while this search runs. */
    method BindSocket(taken: set<nat>) returns (port: Option<nat>)
      requires portCounter < U32
      modifies this`portCounter
      ensures portCounter < U32
      ensures minPort == 0 || minPort > maxPort ==> port == None && portCounter == old(portCounter)
      ensures 0 < minPort <= maxPort ==>
                && portCounter == (old(portCounter) + 1) % U32
                && (port == None <==> forall p :: minPort <= p <= maxPort ==> p in taken)
      ensures port.Some? ==> 0 < minPort <= port.value <= maxPort
      ensures port.Some? ==> exists k :: FirstAt(minPort, maxPort, old(portCounter), taken, k, port.value)
    {
      if minPort == 0 || minPort > maxPort {
        return None;
      }
      var width := maxPort - minPort + 1;
      var start := portCounter % width;
      portCounter := (portCounter + 1) % U32;
      var attempt := 0;
      while attempt < width
        invariant 0 <= attempt <= width
        invariant forall j :: 0 <= j < attempt ==> Candidate(minPort, width, start, j) in taken
      {
        var candidate := minPort + (start + attempt) % width;
        assert candidate == Candidate(minPort, width, start, attempt);
        if candidate !in taken {
          assert FirstAt(minPort, maxPort, old(portCounter), taken, attempt, candidate);
          return Some(candidate);
        }
        attempt := attempt + 1;
      }
      forall p | minPort <= p <= maxPort ensures p in taken {
        var k := CandidateFor(minPort, width, start, p);
      }
      port := None;
    }
  }
}
