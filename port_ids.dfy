/**
 * Dynamic port ids. A new port is named by a direction prefix followed by a
 * decimal counter; the counter starts at the current number of ports and is
 * increased while the candidate id is already taken.
 */
module PortIds {
  import opened Types

  const InputPrefix: string := "input-"
  const OutputPrefix: string := "output-"

  function DigitChar(d: nat): char
    requires d < 10
  {
    (48 + d) as char
  }

  /** The decimal spelling of n, as JavaScript's string concatenation writes it. */
  function NatToString(n: nat): (s: string)
    ensures |s| >= 1
    ensures n >= 10 ==> |s| >= 2
  {
    if n < 10 then [DigitChar(n)] else NatToString(n / 10) + [DigitChar(n % 10)]
  }

  /** Different numbers are spelled differently. */
  lemma {:induction false} NatToStringInjective(a: nat, b: nat)
    requires NatToString(a) == NatToString(b)
    ensures a == b
  {
    if a >= 10 && b >= 10 {
      var sa, sb := NatToString(a), NatToString(b);
      assert sa[..|sa| - 1] == NatToString(a / 10);
      assert sb[..|sb| - 1] == NatToString(b / 10);
      NatToStringInjective(a / 10, b / 10);
      assert DigitChar(a % 10) == sa[|sa| - 1] == sb[|sb| - 1] == DigitChar(b % 10);
    }
  }

  function PortIdFor(prefix: string, n: nat): string {
    prefix + NatToString(n)
  }

  lemma PortIdForInjective(prefix: string, a: nat, b: nat)
    requires PortIdFor(prefix, a) == PortIdFor(prefix, b)
    ensures a == b
  {
    assert PortIdFor(prefix, a)[|prefix|..] == NatToString(a);
    assert PortIdFor(prefix, b)[|prefix|..] == NatToString(b);
    NatToStringInjective(a, b);
  }

  /** The ids of a port list. */
  function PortIdsOf(ports: seq<PortDescription>): set<string> {
    set p | p in ports :: p.portID
  }

  /** The candidate ids for the counters start, ..., stop - 1. */
  function CandidateIds(prefix: string, start: nat, stop: nat): set<string> {
    set k: nat | start <= k < stop :: PortIdFor(prefix, k)
  }

  lemma {:induction false} CandidateIdsCount(prefix: string, start: nat, stop: nat)
    requires start <= stop
    ensures |CandidateIds(prefix, start, stop)| == stop - start
    decreases stop - start
  {
    if start < stop {
      var rest := CandidateIds(prefix, start, stop - 1);
      CandidateIdsCount(prefix, start, stop - 1);
      assert CandidateIds(prefix, start, stop) == rest + {PortIdFor(prefix, stop - 1)};
      if PortIdFor(prefix, stop - 1) in rest {
        var k: nat :| start <= k < stop - 1 && PortIdFor(prefix, k) == PortIdFor(prefix, stop - 1);
        PortIdForInjective(prefix, k, stop - 1);
      }
    } else {
      assert CandidateIds(prefix, start, stop) == {};
    }
  }

  /**
   * n is where probing from `start` stops: the candidate for n is free, and
   * every candidate before it, from `start` on, is taken.
   */
  ghost predicate IsProbeResult(taken: set<string>, prefix: string, start: nat, n: nat) {
    && start <= n
    && PortIdFor(prefix, n) !in taken
    && forall k: nat :: start <= k < n ==> PortIdFor(prefix, k) in taken
  }

  /** Probing has exactly one stopping point. */
  lemma ProbeResultUnique(taken: set<string>, prefix: string, start: nat, m: nat, n: nat)
    requires IsProbeResult(taken, prefix, start, m)
    requires IsProbeResult(taken, prefix, start, n)
    ensures m == n
  {
    assert PortIdFor(prefix, m) !in taken && PortIdFor(prefix, n) !in taken;
  }

  /**
   * The probing loop of addPort: starting from `start`, step the counter while
   * a port of `ports` already carries the candidate id.
   */
  method Probe(ports: seq<PortDescription>, prefix: string, start: nat) returns (suffix: nat, portID: string)
    ensures IsProbeResult(PortIdsOf(ports), prefix, start, suffix)
    ensures portID == PortIdFor(prefix, suffix)
    ensures suffix <= start + |ports|
  {
    ghost var taken := PortIdsOf(ports);
    suffix := start;
    portID := prefix + NatToString(suffix);
    while portID in PortIdsOf(ports)
      invariant start <= suffix
      invariant portID == PortIdFor(prefix, suffix)
      invariant forall k: nat :: start <= k < suffix ==> PortIdFor(prefix, k) in taken
      invariant CandidateIds(prefix, start, suffix) <= taken
      invariant suffix - start <= |taken|
      decreases |taken| - (suffix - start)
    {
      suffix := suffix + 1;
      portID := prefix + NatToString(suffix);
      assert CandidateIds(prefix, start, suffix) <= taken;
      CandidateIdsCount(prefix, start, suffix);
      SubsetCard(CandidateIds(prefix, start, suffix), taken);
    }
    PortIdsCard(ports);
  }

  lemma SubsetCard<T>(a: set<T>, b: set<T>)
    requires a <= b
    ensures |a| <= |b|
  {
    assert b == a + (b - a);
  }

  lemma {:induction false} PortIdsCard(ports: seq<PortDescription>)
    ensures |PortIdsOf(ports)| <= |ports|
  {
    if ports != [] {
      PortIdsCard(ports[1..]);
      assert PortIdsOf(ports) == {ports[0].portID} + PortIdsOf(ports[1..]);
    } else {
      assert PortIdsOf(ports) == {};
    }
  }

  /** No two ports of a list carry the same id. */
  predicate PortIdsDistinct(ports: seq<PortDescription>) {
    forall i, j :: 0 <= i < j < |ports| ==> ports[i].portID != ports[j].portID
  }

  /** Appending a port under an id the list does not carry keeps the ids distinct. */
  lemma AppendFreshPort(ports: seq<PortDescription>, p: PortDescription)
    requires PortIdsDistinct(ports) && p.portID !in PortIdsOf(ports)
    ensures PortIdsDistinct(ports + [p])
  {
    forall i, j | 0 <= i < j < |ports + [p]| ensures (ports + [p])[i].portID != (ports + [p])[j].portID {
      assert (ports + [p])[i] == ports[i];
      if j == |ports| {
        assert ports[i] in ports;
      }
    }
  }

  /** The port that addPort creates under a generated id. */
  function DynamicPort(portID: string, allowMultiInputs: Option<bool>): (p: PortDescription)
    ensures p.portID == p.displayName == portID && p.isDynamicPort && p.dependencies == []
  {
    PortDescription(portID, portID, allowMultiInputs, true, [])
  }

  /**
   * As written, the probe for an output port scans the input ports. When
   * every input port id carries the input prefix, no candidate is ever
   * taken, so the new output port gets the counter it starts from, whatever
   * ids the output ports already carry.
   */
  lemma OutputProbeStopsAtStart(inputs: seq<PortDescription>, start: nat, n: nat)
    requires forall p :: p in inputs ==> |p.portID| > 0 && p.portID[0] == InputPrefix[0]
    requires IsProbeResult(PortIdsOf(inputs), OutputPrefix, start, n)
    ensures n == start
  {
    var candidate := PortIdFor(OutputPrefix, start);
    assert candidate[0] == 'o';
    forall p | p in inputs ensures p.portID != candidate {
      assert p.portID[0] != candidate[0];
    }
    assert IsProbeResult(PortIdsOf(inputs), OutputPrefix, start, start);
    ProbeResultUnique(PortIdsOf(inputs), OutputPrefix, start, start, n);
  }

  /**
   * As written, addPort probes the INPUT port list even for an output port.
   * An operator without input ports whose output ports are "output-0" and
   * "output-2" (a gap left by a removed port) gets the new output id
   * "output-2" a second time.
   */
  lemma OutputProbeCollides(n: nat)
    requires IsProbeResult(PortIdsOf([]), OutputPrefix, 2, n)
    ensures PortIdFor(OutputPrefix, n)
         in PortIdsOf([DynamicPort("output-0", None), DynamicPort("output-2", None)])
  {
    assert PortIdFor(OutputPrefix, 2) !in PortIdsOf([]);
    assert n == 2;
    assert NatToString(2) == "2";
    assert PortIdFor(OutputPrefix, 2) == "output-2";
    assert DynamicPort("output-2", None) in [DynamicPort("output-0", None), DynamicPort("output-2", None)];
  }
}
