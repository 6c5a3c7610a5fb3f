/**
 * The header values a builder derives from the caller's segment list: the
 * outer IPv6 destination and the Segment Routing Header (section 2 of
 * RFC 8754), whose Segment List holds the path in reverse order and whose
 * Segments Left and Last Entry both start at the index of the final element.
 * The IPv6, SRH and UDP headers are plain records here; their byte encoding
 * is not part of this model.
 */
module Srv6 {
  import opened Wire
  import opened Wrappers
  import opened StampErrors

  type Address = string

  datatype Ipv6Header = Ipv6Header(src: Address, dst: Address)
  datatype SegmentRoutingHeader = SegmentRoutingHeader(addresses: seq<Address>, segleft: nat, lastentry: nat)
  datatype UdpHeader = UdpHeader(sport: u16, dport: u16)

  /** `s[::-1]`. */
  function Reversed<T>(s: seq<T>): (r: seq<T>)
    ensures |r| == |s|
    ensures forall i :: 0 <= i < |s| ==> r[i] == s[|s| - 1 - i]
  {
    if s == [] then [] else [s[|s| - 1]] + Reversed(s[..|s| - 1])
  }

  lemma ReversedTwice<T>(s: seq<T>)
    ensures Reversed(Reversed(s)) == s
  {
  }

  /**
   * Destination and Segment Routing Header for a segment list: the first
   * segment is the destination, the list is stored reversed, and
   * segleft = lastentry = length - 1.  An empty list fails at `sidlist[0]`.
   */
  function SegmentRouting(sidlist: seq<Address>): (r: Result<(Address, SegmentRoutingHeader), StampError>)
    ensures r.Err? <==> sidlist == []
    ensures r.Err? ==> r.error == EmptySegmentList
    ensures r.Ok? ==>
      var (dst, srh) := r.value;
      && dst == sidlist[0]
      && |srh.addresses| == |sidlist|
      && srh.segleft == srh.lastentry == |sidlist| - 1
      && (forall k :: 0 <= k < |sidlist| ==> srh.addresses[srh.lastentry - k] == sidlist[k])
  {
    if sidlist == [] then Err(EmptySegmentList)
    else
      var n := |sidlist| - 1;
      Ok((sidlist[0], SegmentRoutingHeader(Reversed(sidlist), n, n)))
  }

  /**
   * The SRH is consistent with the IPv6 header it travels with: the active
   * segment, Segment List[Segments Left], is the destination address, and
   * Last Entry indexes the final element of the Segment List.
   */
  lemma ActiveSegmentIsDestination(sidlist: seq<Address>)
    requires sidlist != []
    ensures SegmentRouting(sidlist).Ok?
    ensures var (dst, srh) := SegmentRouting(sidlist).value;
      srh.segleft < |srh.addresses| && srh.addresses[srh.segleft] == dst
      && srh.lastentry == |srh.addresses| - 1
  {
  }

  /** Reading the stored Segment List back to front gives the caller's path. */
  lemma SegmentListRestoresPath(sidlist: seq<Address>)
    requires sidlist != []
    ensures Reversed(SegmentRouting(sidlist).value.1.addresses) == sidlist
  {
    ReversedTwice(sidlist);
  }

  /** For the path [A, B, C] the header holds [C, B, A] with segleft = lastentry = 2. */
  lemma ThreeSegmentExample(a: Address, b: Address, c: Address)
    ensures SegmentRouting([a, b, c]) == Ok((a, SegmentRoutingHeader([c, b, a], 2, 2)))
  {
    var addresses := SegmentRouting([a, b, c]).value.1.addresses;
    assert addresses[0] == c && addresses[1] == b && addresses[2] == a;
    assert addresses == [c, b, a];
  }
}
