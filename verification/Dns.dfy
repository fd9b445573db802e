/** DNS names and records as the response cache sees them. */
module Dns {
  import opened Basics

  const MAX_NAME_LEN := 255

  const CNAME: u16 := 5
  const SOA: u16 := 6
  const OPT: u16 := 41
  const RRSIG: u16 := 46
  const NSEC: u16 := 47
  const ANY: u16 := 255

  type Label = Bytes

  /** Lower-cased labels, the leftmost first. Comparing names ignores case, so one spelling stands for all. */
  type Name = seq<Label>

  function WireLength(labels: seq<Label>): nat {
    if labels == [] then 1 else 1 + |labels[0]| + WireLength(labels[1..])
  }

  /** The labels as a name, unless a label or the whole is too long. */
  function FromLabels(labels: seq<Label>): Option<Name> {
    if (forall i :: 0 <= i < |labels| ==> 0 < |labels[i]| <= 63) && WireLength(labels) <= MAX_NAME_LEN then Some(labels) else None
  }

  /** The last `n` labels. */
  function Suffix(name: Name, n: nat): Name
    requires n <= |name|
  {
    name[|name| - n..]
  }

  datatype Rrsig = Rrsig(typeCovered: u16, originalTtl: u32, expiration: u32, inception: u32)

  datatype RData = Cname(target: Name) | Dname(target: Name) | Soa(minimum: u32) | Signature(sig: Rrsig) | Raw(bytes: Bytes)

  datatype Record = Record(name: Name, rtype: u16, class_: u16, ttl: u32, data: RData)

  datatype Question = Question(name: Name, qtype: u16, qclass: u16)
}
