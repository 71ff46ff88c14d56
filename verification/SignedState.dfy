/** Signed state that travels through somebody else's system and comes back: made, and checked. */
module SignedState {
  import opened Wrappers
  import opened Base64url

  datatype Purpose = CONSENT | TEMPLATE | EVENT_FEED | GITHUB_INSTALL

  const PURPOSE_KEY := "purpose"
  const ISSUED_AT := "issued_at"

  function PurposeText(p: Purpose): string {
    match p
    case CONSENT => "azure_consent" case TEMPLATE => "template" case EVENT_FEED => "event_grid"
    case GITHUB_INSTALL => "github_install"
  }

  /** A claim's values; true and false are numbers to the language the source is in. */
  datatype Value = Text(text: string) | Number(number: real) | Truth(on: bool) | Other(text: string)

  type Claim = map<string, Value>

  /** What a text decodes to as JSON. */
  datatype Document = Dict(claim: Claim) | NotADict

  /** JSON text, the keyed hash, and what base64 makes of text outside its alphabet. */
  datatype Tools = Tools(dumps: Claim -> seq<Byte>, loads: seq<Byte> -> Option<Document>, mac: string -> string,
                         lenient: string -> Option<seq<Byte>>)

  datatype StateError = Malformed | NotComparable | BadSignature | WrongPurpose | NoIssueTime | Expired

  function Stamped(payload: Claim, purpose: Purpose): Claim {
    payload[PURPOSE_KEY := Text(PurposeText(purpose))]
  }

  /** `sign_state`. */
  function Sign(tools: Tools, payload: Claim, purpose: Purpose): string {
    var body := Encode(tools.dumps(Stamped(payload, purpose)));
    body + "." + tools.mac(body)
  }

  /** `rsplit(".", 1)`. */
  function LastDot(text: string): (r: Option<nat>)
    ensures r.Some? ==> r.value < |text| && text[r.value] == '.' && '.' !in text[r.value + 1..]
    ensures r.None? ==> '.' !in text
  {
    if text == "" then None
    else if text[|text| - 1] == '.' then Some(|text| - 1)
    else LastDot(text[..|text| - 1])
  }

  predicate Ascii(text: string) {
    forall i :: 0 <= i < |text| ==> text[i] < 128 as char
  }

  function Decoded(tools: Tools, body: string): Option<seq<Byte>> {
    if InAlphabet(body) then Decode(body + Padding(|body|)) else tools.lenient(body)
  }

  function IssueTime(claim: Claim): Option<real> {
    if ISSUED_AT !in claim then None
    else match claim[ISSUED_AT]
      case Number(n) => Some(n)
      case Truth(on) => Some(if on then 1.0 else 0.0)
      case _ => None
  }

  /** `verify_state`: signature, purpose and age, in that order. */
  function Verify(tools: Tools, state: string, purpose: Purpose, maxAge: real, now: real): Result<Claim, StateError> {
    match LastDot(state)
    case None => Err(Malformed)
    case Some(dot) => VerifyParts(tools, state[..dot], state[dot + 1..], purpose, maxAge, now)
  }

  function VerifyParts(tools: Tools, body: string, mac: string, purpose: Purpose, maxAge: real,
                       now: real): Result<Claim, StateError> {
    if !Ascii(mac) then Err(NotComparable)
    else if mac != tools.mac(body) then Err(BadSignature)
    else
      var bytes := Decoded(tools, body);
      if bytes.None? || tools.loads(bytes.value).None? || tools.loads(bytes.value).value.NotADict? then Err(Malformed)
      else CheckClaim(tools.loads(bytes.value).value.claim, purpose, maxAge, now)
  }

  function CheckClaim(claim: Claim, purpose: Purpose, maxAge: real, now: real): Result<Claim, StateError> {
    if PURPOSE_KEY !in claim || claim[PURPOSE_KEY] != Text(PurposeText(purpose)) then Err(WrongPurpose)
    else if IssueTime(claim).None? then Err(NoIssueTime)
    else if now - IssueTime(claim).value > maxAge then Err(Expired)
    else Ok(claim)
  }

  // ---------------------------------------------------------------- what is relied on

  /** The claim's JSON text reads back as that claim. */
  predicate JsonReadsBack(tools: Tools, claim: Claim) {
    tools.loads(tools.dumps(claim)) == Some(Dict(claim))
  }

  /** The keyed hash is written in hexadecimal. */
  ghost predicate HexMac(tools: Tools) {
    forall body, i :: 0 <= i < |tools.mac(body)| ==>
        '0' <= tools.mac(body)[i] <= '9' || 'a' <= tools.mac(body)[i] <= 'f'
  }

  // ---------------------------------------------------------------- what it does

  lemma {:induction false} SplitsAtTheLastDot(body: string, mac: string)
    requires '.' !in mac
    ensures LastDot(body + "." + mac) == Some(|body|)
    decreases |mac|
  {
    var text := body + "." + mac;
    if mac == "" {
      assert text[|text| - 1] == '.';
    } else {
      assert text[|text| - 1] == mac[|mac| - 1];
      assert text[..|text| - 1] == body + "." + mac[..|mac| - 1];
      SplitsAtTheLastDot(body, mac[..|mac| - 1]);
    }
  }

  lemma MacIsPlain(tools: Tools, body: string)
    requires HexMac(tools)
    ensures '.' !in tools.mac(body) && Ascii(tools.mac(body))
  {
  }

  lemma SignedDecodes(tools: Tools, claim: Claim)
    requires JsonReadsBack(tools, claim)
    ensures
      var bytes := Decoded(tools, Encode(tools.dumps(claim)));
      bytes.Some? && tools.loads(bytes.value) == Some(Dict(claim))
  {
    PaddingIsRestored(tools.dumps(claim));
    RoundTrip(tools.dumps(claim));
  }

  lemma PurposesDiffer(p: Purpose, q: Purpose)
    ensures PurposeText(p) == PurposeText(q) <==> p == q
  {
  }

  // ---------------------------------------------------------------- what a claim says

  /** The claim was issued at this time; true and false are one and nought. */
  ghost predicate Issued(claim: Claim, t: real) {
    && "issued_at" in claim
    && claim["issued_at"] in {Number(t), Truth(true), Truth(false)}
    && (claim["issued_at"] == Truth(true) ==> t == 1.0) && (claim["issued_at"] == Truth(false) ==> t == 0.0)
  }

  /** The purpose a claim is stamped with. */
  ghost predicate IsFor(claim: Claim, purpose: Purpose) {
    && "purpose" in claim
    && (purpose == CONSENT ==> claim["purpose"] == Text("azure_consent"))
    && (purpose == TEMPLATE ==> claim["purpose"] == Text("template"))
    && (purpose == EVENT_FEED ==> claim["purpose"] == Text("event_grid"))
    && (purpose == GITHUB_INSTALL ==> claim["purpose"] == Text("github_install"))
  }

  ghost predicate IsLive(claim: Claim, maxAge: real, now: real) {
    exists t :: Issued(claim, t) && now - t <= maxAge
  }

  lemma IssuedIs(claim: Claim, t: real)
    ensures Issued(claim, t) <==> IssueTime(claim) == Some(t)
  {
  }

  /** What a check of a claim that was signed makes of it. */
  lemma ChecksWhatItSays(claim: Claim, purpose: Purpose, maxAge: real, now: real)
    ensures CheckClaim(claim, purpose, maxAge, now) ==
            if !IsFor(claim, purpose) then Err(WrongPurpose)
            else if forall t :: !Issued(claim, t) then Err(NoIssueTime)
            else if !IsLive(claim, maxAge, now) then Err(Expired) else Ok(claim)
  {
    forall t
      ensures Issued(claim, t) <==> IssueTime(claim) == Some(t)
    {
      IssuedIs(claim, t);
    }
    if IssueTime(claim).Some? { assert Issued(claim, IssueTime(claim).value); }
  }

  /** The claim and the purpose it is stamped with, and nothing else. */
  ghost predicate StampedWith(claim: Claim, payload: Claim, purpose: Purpose) {
    IsFor(claim, purpose) && claim.Keys == payload.Keys + {"purpose"}
    && forall k :: k in payload && k != "purpose" ==> claim[k] == payload[k]
  }

  /** A signed state gives its claim back, stamped with its purpose, exactly when it is presented for that purpose with
      a numeric issue time no older than allowed; presented for another it is always refused, whatever its payload
      says. */
  lemma VerifyInvertsSign(tools: Tools, payload: Claim, purpose: Purpose, asked: Purpose, maxAge: real, now: real)
    requires JsonReadsBack(tools, Stamped(payload, purpose)) && HexMac(tools)
    ensures
      var r := Verify(tools, Sign(tools, payload, purpose), asked, maxAge, now);
      if asked != purpose then r == Err(WrongPurpose)
      else if forall t :: !Issued(payload, t) then r == Err(NoIssueTime)
      else if !IsLive(payload, maxAge, now) then r == Err(Expired)
      else r.Ok? && StampedWith(r.value, payload, purpose)
  {
    var claim := Stamped(payload, purpose);
    var body := Encode(tools.dumps(claim));
    var state := Sign(tools, payload, purpose);
    MacIsPlain(tools, body);
    SplitsAtTheLastDot(body, tools.mac(body));
    assert state[..|body|] == body && state[|body| + 1..] == tools.mac(body);
    SignedDecodes(tools, claim);
    StampKeepsTheRest(payload, purpose, asked, maxAge, now);
    ChecksWhatItSays(claim, asked, maxAge, now);
  }

  lemma StampKeepsTheRest(payload: Claim, purpose: Purpose, asked: Purpose, maxAge: real, now: real)
    ensures StampedWith(Stamped(payload, purpose), payload, purpose)
    ensures IsFor(Stamped(payload, purpose), asked) <==> asked == purpose
    ensures forall t :: Issued(Stamped(payload, purpose), t) <==> Issued(payload, t)
    ensures IsLive(Stamped(payload, purpose), maxAge, now) <==> IsLive(payload, maxAge, now)
  {
    assert ISSUED_AT[0] != PURPOSE_KEY[0];
    PurposesDiffer(asked, purpose);
    var claim := Stamped(payload, purpose);
    forall t
      ensures Issued(claim, t) <==> Issued(payload, t)
    {
      assert claim.Keys == payload.Keys + {"purpose"};
    }
  }

  ghost predicate AllBelow128(text: string) {
    forall i :: 0 <= i < |text| ==> text[i] as int <= 127
  }

  /** A text that is no body followed by its own mac is refused without a look at what it holds: for want of a dot, for
      a mac that is not ASCII, or for the wrong one. */
  lemma UnsignedSaysNothing(tools: Tools, state: string, purpose: Purpose, maxAge: real, now: real)
    requires forall body :: state != body + "." + tools.mac(body)
    ensures
      var r := Verify(tools, state, purpose, maxAge, now);
      if '.' !in state then r == Err(Malformed)
      else exists i :: 0 <= i < |state| && state[i] == '.' && '.' !in state[i + 1..]
                       && r == Err(if AllBelow128(state[i + 1..]) then BadSignature else NotComparable)
  {
    if LastDot(state).Some? {
      var i := LastDot(state).value;
      var mac := state[i + 1..];
      assert state == state[..i] + "." + mac;
      assert Ascii(mac) <==> AllBelow128(mac);
    }
  }

  /** What is accepted, of any text at all: a body followed by its own mac, holding a claim for the purpose asked for
      that is no older than allowed. */
  lemma OnlyLiveClaimsForThePurpose(tools: Tools, state: string, purpose: Purpose, maxAge: real, now: real,
                                    claim: Claim)
    requires HexMac(tools)
    ensures Verify(tools, state, purpose, maxAge, now) == Ok(claim) <==>
            IsFor(claim, purpose) && IsLive(claim, maxAge, now)
            && exists body :: IsSignedBody(tools, state, body, claim)
  {
    ChecksWhatItSays(claim, purpose, maxAge, now);
    if Verify(tools, state, purpose, maxAge, now) == Ok(claim) {
      AcceptedIsSigned(tools, state, purpose, maxAge, now, claim);
    }
    if body :| IsSignedBody(tools, state, body, claim) {
      SignedIsChecked(tools, state, purpose, maxAge, now, claim, body);
    }
  }

  lemma AcceptedIsSigned(tools: Tools, state: string, purpose: Purpose, maxAge: real, now: real, claim: Claim)
    requires Verify(tools, state, purpose, maxAge, now) == Ok(claim)
    ensures LastDot(state).Some? && IsSignedBody(tools, state, state[..LastDot(state).value], claim)
    ensures CheckClaim(claim, purpose, maxAge, now) == Ok(claim)
  {
    var dot := LastDot(state).value;
    assert state == state[..dot] + "." + state[dot + 1..];
    AcceptedParts(tools, state[..dot], state[dot + 1..], purpose, maxAge, now, claim);
  }

  lemma AcceptedParts(tools: Tools, body: string, mac: string, purpose: Purpose, maxAge: real, now: real, claim: Claim)
    requires VerifyParts(tools, body, mac, purpose, maxAge, now) == Ok(claim)
    ensures mac == tools.mac(body) && CheckClaim(claim, purpose, maxAge, now) == Ok(claim)
    ensures Decoded(tools, body).Some? && tools.loads(Decoded(tools, body).value) == Some(Dict(claim))
  {
  }

  lemma SignedIsChecked(tools: Tools, state: string, purpose: Purpose, maxAge: real, now: real, claim: Claim,
                        body: string)
    requires HexMac(tools) && IsSignedBody(tools, state, body, claim)
    ensures Verify(tools, state, purpose, maxAge, now) == CheckClaim(claim, purpose, maxAge, now)
  {
    MacIsPlain(tools, body);
    SplitsAtTheLastDot(body, tools.mac(body));
    assert state[..|body|] == body && state[|body| + 1..] == tools.mac(body);
  }

  ghost predicate IsSignedBody(tools: Tools, state: string, body: string, claim: Claim) {
    && state == body + "." + tools.mac(body)
    && Decoded(tools, body).Some? && tools.loads(Decoded(tools, body).value) == Some(Dict(claim))
  }
}
