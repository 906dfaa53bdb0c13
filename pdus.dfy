/** PDUs as the session core sees them: a header of command id, command status
    and sequence number, and a body of named fields. How fields are encoded on
    the wire belongs to the PDU codec, which is not part of this model; what the
    session relies on is the codec's field setter, which either stores a field
    or rejects it with an error. */
module Pdus {
  import opened Wrappers
  import opened Uint32

  // Command ids and the success status, as fixed by section 5.1.2.1 and
  // section 5.1.3 of the SMPP v3.4 specification.
  const BIND_TRANSCEIVER: uint32 := 0x0000_0009
  const SUBMIT_SM: uint32 := 0x0000_0004
  const UNBIND: uint32 := 0x0000_0006
  const ENQUIRE_LINK: uint32 := 0x0000_0015
  const ENQUIRE_LINK_RESP: uint32 := 0x8000_0015
  const ESME_ROK: uint32 := 0x0000_0000

  // Field names, as the SMPP v3.4 specification names the mandatory parameters.
  const INTERFACE_VERSION: string := "interface_version"
  const SYSTEM_ID: string := "system_id"
  const PASSWORD: string := "password"
  const SOURCE_ADDR: string := "source_addr"
  const DESTINATION_ADDR: string := "destination_addr"
  const SHORT_MESSAGE: string := "short_message"

  /** The dynamically typed value a caller hands to the field setter. */
  datatype Value = IntValue(i: int) | StringValue(s: string) | BytesValue(b: seq<byte>)

  datatype Header = Header(id: uint32, status: uint32, sequence: uint32)

  datatype Pdu = Pdu(header: Header, fields: map<string, Value>)

  /** The codec's verdict on setting field `name` to `v` on a PDU with the given
      command id: `None` accepts, `Some(e)` rejects with error `e`. */
  type FieldCheck = (uint32, string, Value) -> Option<string>

  /** The codec's parser from a whole frame to a PDU. */
  type Parser = seq<byte> -> Result<Pdu, string>

  /** Caller-supplied extra parameters, in the order the field setter sees them.
      The source iterates a hash map, so no particular order is assumed. */
  type Params = seq<(string, Value)>

  /** A PDU with the given header and an empty body. */
  function EmptyPdu(id: uint32, status: uint32, sequence: uint32): Pdu
  {
    Pdu(Header(id, status, sequence), map[])
  }

  predicate Accepts(check: FieldCheck, id: uint32, name: string, v: Value)
  {
    check(id, name, v).None?
  }

  predicate Rejected(check: FieldCheck, id: uint32, param: (string, Value))
  {
    !Accepts(check, id, param.0, param.1)
  }

  ghost function Names(params: Params): set<string>
  {
    set i | 0 <= i < |params| :: params[i].0
  }

  /** Names as in a map: no parameter name occurs twice. */
  ghost predicate DistinctNames(params: Params)
  {
    forall i, j :: 0 <= i < j < |params| ==> params[i].0 != params[j].0
  }

  /** The codec's field setter: a rejected field leaves the PDU as it is. */
  function SetField(check: FieldCheck, p: Pdu, name: string, v: Value): Result<Pdu, string>
  {
    match check(p.header.id, name, v)
    case Some(e) => Err(e)
    case None => Ok(p.(fields := p.fields[name := v]))
  }

  /** A field set whose error the caller discards. */
  function SetFieldIgnoringError(check: FieldCheck, p: Pdu, name: string, v: Value): (q: Pdu)
    ensures q.header == p.header
    ensures Accepts(check, p.header.id, name, v) ==> q.fields == p.fields[name := v]
    ensures !Accepts(check, p.header.id, name, v) ==> q.fields == p.fields
  {
    match SetField(check, p, name, v)
    case Ok(q) => q
    case Err(_) => p
  }

  /** Sets every extra parameter in turn, stopping at the first one the codec
      rejects and returning that rejection. */
  function SetFields(check: FieldCheck, p: Pdu, params: Params): Result<Pdu, string>
    decreases |params|
  {
    if params == [] then Ok(p)
    else
      match SetField(check, p, params[0].0, params[0].1)
      case Err(e) => Err(e)
      case Ok(q) => SetFields(check, q, params[1..])
  }

  /** The extra parameters are applied by a loop that returns on the first
      rejection. */
  method ApplyParams(check: FieldCheck, p: Pdu, params: Params) returns (r: Result<Pdu, string>)
    ensures r == SetFields(check, p, params)
  {
    var q := p;
    var i := 0;
    while i < |params|
      invariant 0 <= i <= |params|
      invariant SetFields(check, q, params[i..]) == SetFields(check, p, params)
    {
      assert params[i..][1..] == params[i + 1..];
      match SetField(check, q, params[i].0, params[i].1)
      case Err(e) =>
        return Err(e);
      case Ok(q') =>
        q := q';
      i := i + 1;
    }
    assert params[i..] == [];
    return Ok(q);
  }

  /** Setting extra parameters fails exactly when the codec rejects one of
      them. */
  lemma {:induction false} SetFieldsFailure(check: FieldCheck, p: Pdu, params: Params)
    ensures SetFields(check, p, params).Err? <==>
      exists i :: 0 <= i < |params| && Rejected(check, p.header.id, params[i])
    decreases |params|
  {
    if params != [] {
      var id := p.header.id;
      match SetField(check, p, params[0].0, params[0].1)
      case Err(e) =>
        assert Rejected(check, id, params[0]);
      case Ok(q) =>
        var rest := params[1..];
        SetFieldsFailure(check, q, rest);
        if !SetFields(check, p, params).Err? {
          forall i | 0 <= i < |params| ensures !Rejected(check, id, params[i]) {
            if i > 0 { assert params[i] == rest[i - 1]; }
          }
        } else {
          var k :| 0 <= k < |rest| && Rejected(check, id, rest[k]);
          assert params[k + 1] == rest[k];
        }
    }
  }

  /** The error is the rejection of the first rejected parameter in the order
      the setter sees them. */
  lemma {:induction false} SetFieldsFirstRejection(check: FieldCheck, p: Pdu, params: Params)
    requires SetFields(check, p, params).Err?
    ensures exists i ::
              && 0 <= i < |params| && Rejected(check, p.header.id, params[i])
              && (forall j :: 0 <= j < i ==> !Rejected(check, p.header.id, params[j]))
              && SetFields(check, p, params).error == check(p.header.id, params[i].0, params[i].1).value
    decreases |params|
  {
    var id := p.header.id;
    match SetField(check, p, params[0].0, params[0].1)
    case Err(e) =>
      assert Rejected(check, id, params[0]);
    case Ok(q) =>
      var rest := params[1..];
      SetFieldsFirstRejection(check, q, rest);
      var k :| 0 <= k < |rest| && Rejected(check, id, rest[k]) &&
        (forall j :: 0 <= j < k ==> !Rejected(check, id, rest[j])) &&
        SetFields(check, q, rest).error == check(id, rest[k].0, rest[k].1).value;
      assert params[k + 1] == rest[k];
      forall j | 0 <= j < k + 1 ensures !Rejected(check, id, params[j]) {
        if j > 0 { assert params[j] == rest[j - 1]; }
      }
  }

  /** A successful run of the setter keeps the header, adds exactly the
      parameter names to the body, and leaves every other field as it was. */
  lemma {:induction false} SetFieldsKeeps(check: FieldCheck, p: Pdu, params: Params)
    requires SetFields(check, p, params).Ok?
    ensures SetFields(check, p, params).value.header == p.header
    ensures SetFields(check, p, params).value.fields.Keys == p.fields.Keys + Names(params)
    ensures forall k :: k in p.fields && k !in Names(params) ==>
      SetFields(check, p, params).value.fields[k] == p.fields[k]
    decreases |params|
  {
    if params != [] {
      var q := SetField(check, p, params[0].0, params[0].1).value;
      var rest := params[1..];
      SetFieldsKeeps(check, q, rest);
      assert Names(params) == {params[0].0} + Names(rest) by {
        forall n | n in Names(params) ensures n in {params[0].0} + Names(rest) {
          var i :| 0 <= i < |params| && params[i].0 == n;
          if i > 0 { assert rest[i - 1] == params[i]; }
        }
        forall n | n in Names(rest) ensures n in Names(params) {
          var i :| 0 <= i < |rest| && rest[i].0 == n;
          assert params[i + 1] == rest[i];
        }
      }
    } else {
      assert Names(params) == {};
    }
  }

  /** When no name repeats, every extra parameter ends up in the body with the
      value the caller gave. */
  lemma {:induction false} SetFieldsStores(check: FieldCheck, p: Pdu, params: Params)
    requires SetFields(check, p, params).Ok?
    requires DistinctNames(params)
    ensures forall i :: 0 <= i < |params| ==>
      params[i].0 in SetFields(check, p, params).value.fields &&
      SetFields(check, p, params).value.fields[params[i].0] == params[i].1
    decreases |params|
  {
    if params != [] {
      var q := SetField(check, p, params[0].0, params[0].1).value;
      var rest := params[1..];
      SetFieldsStores(check, q, rest);
      SetFieldsKeeps(check, q, rest);
      assert params[0].0 !in Names(rest);
      forall i | 0 <= i < |params|
        ensures params[i].0 in SetFields(check, p, params).value.fields &&
          SetFields(check, p, params).value.fields[params[i].0] == params[i].1
      {
        if i > 0 { assert params[i] == rest[i - 1]; }
      }
    }
  }

  /** What a constructor that applies extra parameters to the PDU `p` with
      command id `id` promises: it fails exactly when the codec rejects one of
      them, and then with the first rejection in the order the setter sees them;
      on success every extra parameter is stored (names being distinct,
      as in a map of parameters), and a field `name` that `p` carries and no
      extra parameter overrides keeps its value. */
  ghost predicate ExtrasApplied(r: Result<Pdu, string>, check: FieldCheck, p: Pdu, params: Params)
  {
    (r.Err? <==> exists i :: 0 <= i < |params| && Rejected(check, p.header.id, params[i])) &&
    (r.Err? ==>
       exists i ::
         && 0 <= i < |params| && Rejected(check, p.header.id, params[i])
         && (forall j :: 0 <= j < i ==> !Rejected(check, p.header.id, params[j]))
         && r.error == check(p.header.id, params[i].0, params[i].1).value) &&
    (r.Ok? ==> r.value.header == p.header) &&
    (r.Ok? ==> r.value.fields.Keys == p.fields.Keys + Names(params)) &&
    (r.Ok? ==> forall k :: k in p.fields && k !in Names(params) ==> r.value.fields[k] == p.fields[k]) &&
    (r.Ok? && DistinctNames(params) ==>
      forall i :: 0 <= i < |params| ==> r.value.fields[params[i].0] == params[i].1)
  }

  lemma SetFieldsApplies(check: FieldCheck, p: Pdu, params: Params)
    ensures ExtrasApplied(SetFields(check, p, params), check, p, params)
  {
    SetFieldsFailure(check, p, params);
    if SetFields(check, p, params).Err? {
      SetFieldsFirstRejection(check, p, params);
    } else {
      SetFieldsKeeps(check, p, params);
      if DistinctNames(params) {
        SetFieldsStores(check, p, params);
      }
    }
  }
}
