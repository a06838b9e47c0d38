/** Canonical endpoint references (fabric/ref.go): two exact textual forms, parsed
    without any normalization. */
module EndpointRefs {
  import opened Bytes
  import Base32

  const NAMESPACE_LENGTH := 54
  const ENDPOINT_LENGTH := 118
  const OFFER_LENGTH := 173

  function Prefix(): bytes {
    Ascii("pagnet://")
  }

  function EndpointMark(): bytes {
    Ascii("/e/")
  }

  function OfferMark(): bytes {
    Ascii("#o-")
  }

  function NamespaceMark(): bytes {
    Ascii("d-")
  }

  /** Its parts are private to the package: values come only from `Parse`, `New` and
      `WithOfferId`, besides the zero value. */
  datatype EndpointRef = EndpointRef(namespace: bytes, endpointId: bytes, offerId: bytes) {
    function Text(): bytes {
      if namespace == [] || endpointId == [] then []
      else
        var base := Prefix() + namespace + EndpointMark() + endpointId;
        if offerId == [] then base else base + OfferMark() + offerId
    }

    predicate WellFormed() {
      CanonicalNamespace(namespace) && Base32.Canonical(endpointId) && (offerId == [] || Base32.Canonical(offerId))
    }
  }

  const ZERO: EndpointRef := EndpointRef([], [], [])

  predicate CanonicalNamespace(text: bytes) {
    |text| == NAMESPACE_LENGTH && NamespaceMark() <= text && Base32.Canonical(text[2..])
  }

  function Parse(text: bytes): Option<EndpointRef> {
    if (|text| != ENDPOINT_LENGTH && |text| != OFFER_LENGTH) || !(Prefix() <= text) then None
    else
      var namespace := text[9..63];
      if !CanonicalNamespace(namespace) || text[63..66] != EndpointMark() then None
      else
        var endpointId := text[66..118];
        if !Base32.Canonical(endpointId) then None
        else if |text| == ENDPOINT_LENGTH then Some(EndpointRef(namespace, endpointId, []))
        else if text[118..121] != OfferMark() || !Base32.Canonical(text[121..]) then None
        else Some(EndpointRef(namespace, endpointId, text[121..]))
  }

  /** Where each of five parts lies in their concatenation. */
  lemma Layout(a: bytes, b: bytes, c: bytes, d: bytes, e: bytes)
    ensures
      var t := a + b + c + d + e;
      var i, j, k, l := |a|, |a| + |b|, |a| + |b| + |c|, |a| + |b| + |c| + |d|;
      t[..i] == a && t[i..j] == b && t[j..k] == c && t[k..l] == d && t[l..] == e
  {
  }

  function Tail(r: EndpointRef): bytes {
    if r.offerId == [] then [] else OfferMark() + r.offerId
  }

  lemma TextIs(r: EndpointRef)
    requires r.WellFormed()
    ensures r.Text() == Prefix() + r.namespace + EndpointMark() + r.endpointId + Tail(r)
  {
    var base := Prefix() + r.namespace + EndpointMark() + r.endpointId;
    if r.offerId == [] { assert base + [] == base; } else { assert base + OfferMark() + r.offerId == base + Tail(r); }
  }

  lemma TextLayout(r: EndpointRef)
    requires r.WellFormed()
    ensures
      var t := r.Text();
      && |t| == (if r.offerId == [] then ENDPOINT_LENGTH else OFFER_LENGTH)
      && t[..9] == Prefix() && t[9..63] == r.namespace && t[63..66] == EndpointMark() && t[66..118] == r.endpointId
      && (r.offerId != [] ==> t[118..121] == OfferMark() && t[121..] == r.offerId)
  {
    var tail := Tail(r);
    var t := Prefix() + r.namespace + EndpointMark() + r.endpointId + tail;
    TextIs(r);
    Layout(Prefix(), r.namespace, EndpointMark(), r.endpointId, tail);
    if r.offerId != [] { OfferLayout(t, r.offerId); }
  }

  lemma OfferLayout(t: bytes, id: bytes)
    requires |t| >= 121 && t[118..] == OfferMark() + id
    ensures t[118..121] == OfferMark() && t[121..] == id
  {
    assert t[118..][..3] == t[118..121] && t[118..][3..] == t[121..];
  }

  /** Parsing inverts the text of every well-formed reference. */
  lemma ParseOfText(r: EndpointRef)
    requires r.WellFormed()
    ensures Parse(r.Text()) == Some(r)
  {
    TextLayout(r);
  }

  /** Whatever parses is well formed and is exactly the text of the result. */
  lemma TextOfParse(text: bytes)
    requires Parse(text).Some?
    ensures Parse(text).value.WellFormed() && Parse(text).value.Text() == text
  {
    var r := Parse(text).value;
    assert text == text[..9] + text[9..63] + text[63..66] + text[66..118] + text[118..];
    assert text[..9] == Prefix();
    if |text| == ENDPOINT_LENGTH {
      assert text[118..] == [];
    } else {
      assert text[118..] == text[118..121] + text[121..];
    }
  }

  function Namespace(hash: bytes -> bytes, key: bytes): Option<bytes> {
    var digest := hash(Ascii("pagnet.fabric.domain.v1") + [0] + key);
    if |key| != 32 || |digest| != 32 then None else Some(NamespaceMark() + Base32.Encode(digest))
  }

  lemma NamespaceIsCanonical(hash: bytes -> bytes, key: bytes)
    requires Namespace(hash, key).Some?
    ensures CanonicalNamespace(Namespace(hash, key).value)
  {
    var digest := hash(Ascii("pagnet.fabric.domain.v1") + [0] + key);
    var text := Namespace(hash, key).value;
    assert text[2..] == Base32.Encode(digest);
    Base32.CanonicalIffImage(Base32.Encode(digest));
  }

  function New(hash: bytes -> bytes, key: bytes, entropy: bytes): Option<EndpointRef> {
    if Namespace(hash, key).None? || |entropy| != 32 then None
    else Some(EndpointRef(Namespace(hash, key).value, Base32.Encode(entropy), []))
  }

  function WithOfferId(r: EndpointRef, id: bytes): Option<EndpointRef> {
    if Parse(r.Text()).None? || |id| != 32 then None else Some(r.(offerId := Base32.Encode(id)))
  }

  function Endpoint(r: EndpointRef): EndpointRef {
    r.(offerId := [])
  }

  /** A new reference is made exactly from a 32 byte key and 32 bytes of entropy: its
      endpoint is the entropy, its namespace the key's domain hash, and it has no offer. */
  lemma AllocatesExactly(hash: bytes -> bytes, key: bytes, entropy: bytes)
    requires forall x :: |hash(x)| == 32
    ensures New(hash, key, entropy).Some? <==> |key| == 32 && |entropy| == 32
    ensures New(hash, key, entropy).Some? ==>
      var r := New(hash, key, entropy).value;
      && r.WellFormed() && r.offerId == []
      && Base32.Decode(r.endpointId) == entropy
      && Base32.Decode(r.namespace[2..]) == hash(Ascii("pagnet.fabric.domain.v1") + [0] + key)
  {
    if New(hash, key, entropy).Some? {
      var digest := hash(Ascii("pagnet.fabric.domain.v1") + [0] + key);
      NamespaceIsCanonical(hash, key);
      Base32.CanonicalIffImage(Base32.Encode(entropy));
      Base32.DecodeOfEncode(entropy);
      Base32.DecodeOfEncode(digest);
      assert Namespace(hash, key).value[2..] == Base32.Encode(digest);
    }
  }

  /** Selecting an offer succeeds for exactly 32 identity bytes, on an endpoint or in
      place of another offer, and keeps the endpoint; the endpoint's text is the offer's
      without its end. */
  lemma OfferKeepsEndpoint(r: EndpointRef, id: bytes)
    requires r.WellFormed()
    ensures WithOfferId(r, id).Some? <==> |id| == 32
    ensures |id| == 32 ==>
      var offer := WithOfferId(r, id).value;
      && offer.WellFormed() && offer.offerId != [] && Base32.Decode(offer.offerId) == id
      && Endpoint(offer) == Endpoint(r) && Endpoint(r).WellFormed()
      && offer.Text()[..ENDPOINT_LENGTH] == Endpoint(r).Text() == r.Text()[..ENDPOINT_LENGTH]
  {
    ParseOfText(r);
    if |id| == 32 {
      Base32.CanonicalIffImage(Base32.Encode(id));
      Base32.DecodeOfEncode(id);
      EndpointIsFront(r);
      EndpointIsFront(r.(offerId := Base32.Encode(id)));
    }
  }

  lemma EndpointIsFront(r: EndpointRef)
    requires r.WellFormed()
    ensures r.Text()[..ENDPOINT_LENGTH] == Endpoint(r).Text()
  {
    var base := Endpoint(r).Text();
    assert |base| == ENDPOINT_LENGTH;
    if r.offerId != [] { assert r.Text() == base + OfferMark() + r.offerId; } else { assert r.Text() == base; }
  }

  /** How a program comes by a reference. */
  datatype Origin =
    | Zero
    | Parsed(text: bytes)
    | Allocated(key: bytes, entropy: bytes)
    | Offer(of: Origin, id: bytes)
    | EndpointOf(of: Origin)

  /** The reference, unless some call on the way fails. */
  function Obtained(hash: bytes -> bytes, o: Origin): Option<EndpointRef> {
    match o
    case Zero => Some(ZERO)
    case Parsed(text) => Parse(text)
    case Allocated(key, entropy) => New(hash, key, entropy)
    case Offer(of, id) =>
      (match Obtained(hash, of)
       case Some(r) => WithOfferId(r, id)
       case None => None)
    case EndpointOf(of) =>
      (match Obtained(hash, of)
       case Some(r) => Some(Endpoint(r))
       case None => None)
  }

  /** Whatever calls a program makes, a reference it holds is the zero value or well
      formed, and then parsing its text gives it back. */
  lemma {:induction false} ReferencesAreWellFormed(hash: bytes -> bytes, o: Origin)
    requires Obtained(hash, o).Some?
    ensures var r := Obtained(hash, o).value; r == ZERO || (r.WellFormed() && Parse(r.Text()) == Some(r))
  {
    match o
    case Zero =>
    case Parsed(text) => TextOfParse(text);
    case Allocated(key, entropy) =>
      NamespaceIsCanonical(hash, key);
      Base32.CanonicalIffImage(Base32.Encode(entropy));
      ParseOfText(Obtained(hash, o).value);
    case Offer(of, id) =>
      ReferencesAreWellFormed(hash, of);
      assert Parse(ZERO.Text()).None?;
      OfferKeepsEndpoint(Obtained(hash, of).value, id);
      ParseOfText(Obtained(hash, o).value);
    case EndpointOf(of) =>
      ReferencesAreWellFormed(hash, of);
      if Obtained(hash, of).value != ZERO { ParseOfText(Obtained(hash, o).value); }
  }

  /** Different references have different texts. */
  lemma TextInjective(a: EndpointRef, b: EndpointRef)
    requires a.WellFormed() && b.WellFormed() && a.Text() == b.Text()
    ensures a == b
  {
    ParseOfText(a);
    ParseOfText(b);
  }
}
