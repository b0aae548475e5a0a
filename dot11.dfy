/**
 * Abstract 802.11 management frames as the fake access point sees them.
 *
 * Captured frames and the frames the access point sends are records, not
 * bytes: only the fields the access point reads or overwrites are kept.
 * Building and serialising the frames is done by a foreign packet library
 * that is not part of this model.
 */
module Dot11 {

  /** A MAC address as the packet library renders it, e.g. "ff:ff:ff:ff:ff:ff". */
  type Mac = string

  /** The broadcast receiver address of every beacon. */
  const Broadcast: Mac := "ff:ff:ff:ff:ff:ff"

  /** The packet library's default address, left in a template's addr1 until a reply overwrites it. */
  const Unset: Mac := "00:00:00:00:00:00"

  /** Frame type "management" (IEEE 802.11-2020, clause 9.2.4.1.3, Table 9-1). */
  const ManagementType: nat := 0

  /** Management subtypes (IEEE 802.11-2020, clause 9.2.4.1.3, Table 9-1). */
  const AssocReqSubtype: nat := 0
  const ReassocReqSubtype: nat := 2
  const ProbeReqSubtype: nat := 4
  const ProbeRespSubtype: nat := 5
  const BeaconSubtype: nat := 8
  const AuthSubtype: nat := 11

  /** The capability field the fake access point advertises in beacons and probe responses. */
  const Capabilities: int := 0x1111

  /** The authentication transaction sequence number of the reply (the "success" step). */
  const AuthReplyStep: int := 2

  /**
   * An information element: its element ID, its length field and its body
   * decoded as text. The length field is kept apart from the body, because a
   * captured frame may carry a length that does not match what follows it.
   */
  datatype Element = Element(id: nat, len: nat, info: string)

  /**
   * A captured frame: type, subtype, receiver (addr1), transmitter (addr2)
   * and its information elements in order. Everything else the frame
   * carries travels with it unchanged and is not looked at.
   */
  datatype Frame = Frame(ftype: nat, subtype: nat, addr1: Mac, addr2: Mac, elements: seq<Element>)

  /** The frame-type specific body of a frame the access point sends. */
  datatype Body =
    | BeaconBody(cap: int)
    | ProbeRespBody(cap: int)
    | AuthBody(authSeq: int)

  /**
   * A frame the access point sends: header addresses, the Sequence Control
   * sequence number (IEEE 802.11-2020, clause 9.2.4.4), body and elements.
   * The sequence number is an unbounded integer: nothing reduces it.
   */
  datatype OutFrame = OutFrame(
    ftype: nat, subtype: nat,
    addr1: Mac, addr2: Mac, addr3: Mac,
    seqNum: int,
    body: Body,
    elements: seq<Element>)

  /** The beacon template: broadcast, from and for our own MAC, with the advertised elements. */
  function BeaconTemplate(mac: Mac, ies: seq<Element>): OutFrame
  {
    OutFrame(ManagementType, BeaconSubtype, Broadcast, mac, mac, 0, BeaconBody(Capabilities), ies)
  }

  /** The probe-response template; addr1 is filled per reply. */
  function ProbeResponseTemplate(mac: Mac, ies: seq<Element>): OutFrame
  {
    OutFrame(ManagementType, ProbeRespSubtype, Unset, mac, mac, 0, ProbeRespBody(Capabilities), ies)
  }

  /** The authentication template; addr1 is filled per reply. It carries no elements. */
  function AuthTemplate(mac: Mac): OutFrame
  {
    OutFrame(ManagementType, AuthSubtype, Unset, mac, mac, 0, AuthBody(AuthReplyStep), [])
  }

  /** `f` is `template` with at most its receiver address and sequence number overwritten. */
  predicate Restamped(f: OutFrame, template: OutFrame)
  {
    f.(addr1 := template.addr1, seqNum := template.seqNum) == template
  }
}
