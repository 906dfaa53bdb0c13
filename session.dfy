/** The SMPP session: the sequence counter it owns and the operation
    constructors that stamp PDU headers with it. */
module Session {
  import opened Wrappers
  import opened Uint32
  import opened Pdus

  const INTERFACE_VERSION_3_4: int := 0x34

  class Smpp {
    /** The last sequence number handed out; zero on a new session. */
    var sequence: uint32

    /** A new session, before any connection: every field is zero. */
    constructor ()
      ensures sequence == 0
    {
      sequence := 0;
    }

    /** Advances the counter by one, wrapping at 2^32, and returns the new value. */
    method NewSeqNum() returns (n: uint32)
      modifies this
      ensures sequence == Inc(old(sequence))
      ensures n == sequence
    {
      sequence := Inc(sequence);
      n := sequence;
    }

    /** A bind_transceiver request carrying the interface version, the system
        id and the password, then the caller's extra parameters. The sequence
        number is allocated whether or not an extra parameter is rejected. */
    method Bind(systemId: string, password: string, params: Params, check: FieldCheck)
      returns (r: Result<Pdu, string>)
      modifies this
      ensures sequence == Inc(old(sequence))
      ensures r.Err? <==> exists i :: 0 <= i < |params| && Rejected(check, BIND_TRANSCEIVER, params[i])
      ensures r.Ok? ==> r.value.header == Header(BIND_TRANSCEIVER, ESME_ROK, sequence)
      ensures r == SetFields(check, BindBody(check, systemId, password, sequence), params)
      ensures ExtrasApplied(r, check, BindBody(check, systemId, password, sequence), params)
    {
      var n := NewSeqNum();
      var b := BindBody(check, systemId, password, n);
      r := ApplyParams(check, b, params);
      SetFieldsApplies(check, b, params);
    }

    /** An enquire_link request with a fresh sequence number. */
    method EnquireLink() returns (p: Pdu)
      modifies this
      ensures sequence == Inc(old(sequence))
      ensures p == EmptyPdu(ENQUIRE_LINK, ESME_ROK, sequence)
    {
      var n := NewSeqNum();
      p := EmptyPdu(ENQUIRE_LINK, ESME_ROK, n);
    }

    /** An enquire_link_resp answering the peer's request numbered `peerSequence`: the number is
        echoed, not allocated, so the counter is not touched. */
    method EnquireLinkResp(peerSequence: uint32) returns (p: Pdu)
      ensures p.header == Header(ENQUIRE_LINK_RESP, ESME_ROK, peerSequence)
      ensures p.fields == map[]
    {
      p := EmptyPdu(ENQUIRE_LINK_RESP, ESME_ROK, peerSequence);
    }

    /** A submit_sm request carrying the source address, the destination
        address and the message text, then the caller's extra parameters. */
    method SubmitSm(sourceAddr: string, destinationAddr: string, shortMessage: string,
                    params: Params, check: FieldCheck)
      returns (r: Result<Pdu, string>)
      modifies this
      ensures sequence == Inc(old(sequence))
      ensures r.Err? <==> exists i :: 0 <= i < |params| && Rejected(check, SUBMIT_SM, params[i])
      ensures r.Ok? ==> r.value.header == Header(SUBMIT_SM, ESME_ROK, sequence)
      ensures r == SetFields(check, SubmitSmBody(check, sequence, sourceAddr, destinationAddr, shortMessage), params)
      ensures ExtrasApplied(r, check, SubmitSmBody(check, sequence, sourceAddr, destinationAddr, shortMessage), params)
    {
      var n := NewSeqNum();
      var p := SubmitSmBody(check, n, sourceAddr, destinationAddr, shortMessage);
      r := ApplyParams(check, p, params);
      SetFieldsApplies(check, p, params);
    }

    /** An unbind request with a fresh sequence number. */
    method Unbind() returns (p: Pdu)
      modifies this
      ensures sequence == Inc(old(sequence))
      ensures p == EmptyPdu(UNBIND, ESME_ROK, sequence)
    {
      var n := NewSeqNum();
      p := EmptyPdu(UNBIND, ESME_ROK, n);
    }
  }

  /** The bind_transceiver PDU with sequence number `n` after its three
      mandatory fields are set; a field the codec rejects is left out, since
      those errors are discarded. */
  function BindBody(check: FieldCheck, systemId: string, password: string, n: uint32): (b: Pdu)
    ensures b.header == Header(BIND_TRANSCEIVER, ESME_ROK, n)
    ensures b.fields.Keys <= {INTERFACE_VERSION, SYSTEM_ID, PASSWORD}
    ensures Accepts(check, BIND_TRANSCEIVER, INTERFACE_VERSION, IntValue(INTERFACE_VERSION_3_4)) <==>
      INTERFACE_VERSION in b.fields && b.fields[INTERFACE_VERSION] == IntValue(INTERFACE_VERSION_3_4)
    ensures Accepts(check, BIND_TRANSCEIVER, SYSTEM_ID, StringValue(systemId)) <==>
      SYSTEM_ID in b.fields && b.fields[SYSTEM_ID] == StringValue(systemId)
    ensures Accepts(check, BIND_TRANSCEIVER, PASSWORD, StringValue(password)) <==>
      PASSWORD in b.fields && b.fields[PASSWORD] == StringValue(password)
  {
    var b := EmptyPdu(BIND_TRANSCEIVER, ESME_ROK, 0);
    var b := SetFieldIgnoringError(check, b, INTERFACE_VERSION, IntValue(INTERFACE_VERSION_3_4));
    var b := SetFieldIgnoringError(check, b, SYSTEM_ID, StringValue(systemId));
    var b := SetFieldIgnoringError(check, b, PASSWORD, StringValue(password));
    b.(header := b.header.(sequence := n))
  }

  /** The submit_sm PDU with sequence number `n` after its three mandatory
      fields are set; a field the codec rejects is left out. */
  function SubmitSmBody(check: FieldCheck, n: uint32, sourceAddr: string, destinationAddr: string,
                        shortMessage: string): (p: Pdu)
    ensures p.header == Header(SUBMIT_SM, ESME_ROK, n)
    ensures p.fields.Keys <= {SOURCE_ADDR, DESTINATION_ADDR, SHORT_MESSAGE}
    ensures Accepts(check, SUBMIT_SM, SOURCE_ADDR, StringValue(sourceAddr)) <==>
      SOURCE_ADDR in p.fields && p.fields[SOURCE_ADDR] == StringValue(sourceAddr)
    ensures Accepts(check, SUBMIT_SM, DESTINATION_ADDR, StringValue(destinationAddr)) <==>
      DESTINATION_ADDR in p.fields && p.fields[DESTINATION_ADDR] == StringValue(destinationAddr)
    ensures Accepts(check, SUBMIT_SM, SHORT_MESSAGE, StringValue(shortMessage)) <==>
      SHORT_MESSAGE in p.fields && p.fields[SHORT_MESSAGE] == StringValue(shortMessage)
  {
    var p := EmptyPdu(SUBMIT_SM, ESME_ROK, n);
    var p := SetFieldIgnoringError(check, p, SOURCE_ADDR, StringValue(sourceAddr));
    var p := SetFieldIgnoringError(check, p, DESTINATION_ADDR, StringValue(destinationAddr));
    SetFieldIgnoringError(check, p, SHORT_MESSAGE, StringValue(shortMessage))
  }

  /** On a new session the first Bind is stamped with sequence number 1. */
  method FirstBindOnNewSession(systemId: string, password: string, params: Params, check: FieldCheck)
    returns (s: Smpp, r: Result<Pdu, string>)
    ensures s.sequence == 1
    ensures r.Ok? ==> r.value.header.sequence == 1
  {
    s := new Smpp();
    r := s.Bind(systemId, password, params, check);
  }

  /** Allocating constructors called one after another stamp consecutive
      sequence numbers, in call order, whatever becomes of their extra
      parameters. */
  method AllocationOrder(s: Smpp, systemId: string, password: string, sourceAddr: string,
                         destinationAddr: string, shortMessage: string, params: Params, check: FieldCheck)
    returns (e: Pdu, m: Result<Pdu, string>, u: Pdu, b: Result<Pdu, string>)
    modifies s
    ensures e.header.sequence == Issued(old(s.sequence), 1)
    ensures m.Ok? ==> m.value.header.sequence == Inc(e.header.sequence)
    ensures u.header.sequence == Issued(old(s.sequence), 3)
    ensures b.Ok? ==> b.value.header.sequence == Inc(u.header.sequence)
    ensures s.sequence == Issued(old(s.sequence), 4)
  {
    e := s.EnquireLink();
    m := s.SubmitSm(sourceAddr, destinationAddr, shortMessage, params, check);
    u := s.Unbind();
    b := s.Bind(systemId, password, params, check);
  }
}
