/** Protocol descriptions, as the protocol generator emits them for both parties. */
module Spec {
  import opened Bytes

  type Name = seq<byte>

  /** SMethod; a method without a return type has an empty `returnsType`. */
  datatype Method = Method(params: seq<byte>, returnsType: Name, since: nat)

  datatype ObjectSpec = ObjectSpec(name: Name, c2s: seq<Method>, s2c: seq<Method>)

  datatype Protocol = Protocol(name: Name, version: nat, objects: seq<ObjectSpec>)

  function Find(protocols: seq<Protocol>, name: Name): (r: Option<Protocol>)
    ensures r.Some? ==> r.value in protocols && r.value.name == name
    ensures r.None? ==> forall p :: p in protocols ==> p.name != name
  {
    if protocols == [] then None
    else if protocols[0].name == name then Some(protocols[0])
    else Find(protocols[1..], name)
  }

  function FindObject(objects: seq<ObjectSpec>, name: Name): (r: Option<ObjectSpec>)
    ensures r.Some? ==> r.value in objects && r.value.name == name
    ensures r.None? ==> forall o :: o in objects ==> o.name != name
  {
    if objects == [] then None
    else if objects[0].name == name then Some(objects[0])
    else FindObject(objects[1..], name)
  }
}
