/** Approval tokens: minted by the admin API and by the broker, checked by errand-runner
    (src/agents/api/admin.py:358-384, src/agents/nodes/errand_runner.py:115-144).
    HMAC-SHA256 is an arbitrary function whose output is hexadecimal. */
module ApprovalToken {
  import opened Text

  /** mac(secret, payload) */
  type Mac = (string, string) -> string

  datatype Fields = Fields(task: string, actionClass: string, server: string, method_: string)

  function Payload(f: Fields, nonce: string): string {
    Join([f.task, f.actionClass, f.server, f.method_, nonce], '|')
  }

  function Sign(mac: Mac, secret: string, f: Fields, nonce: string): string {
    Payload(f, nonce) + [':'] + mac(secret, Payload(f, nonce))
  }

  /** `hmac.compare_digest` raises on a string that is not ASCII. */
  datatype Check = Accepted | Refused | Raises

  function CheckToken(mac: Mac, secret: string, token: string, f: Fields): Check {
    if ':' !in token then Refused
    else
      var (payload, signature) := CutLast(token, ':');
      var parts := Split(payload, '|');
      if |parts| < 5 || Fields(parts[0], parts[1], parts[2], parts[3]) != f then Refused
      else if !Ascii(signature) then Raises
      else if mac(secret, payload) == signature then Accepted
      else Refused
  }

  predicate Verify(mac: Mac, secret: string, token: string, f: Fields) {
    CheckToken(mac, secret, token, f).Accepted?
  }

  predicate Ascii(s: string) {
    forall i :: 0 <= i < |s| ==> s[i] < '\U{80}'
  }

  predicate Hex(s: string) {
    forall i :: 0 <= i < |s| ==> '0' <= s[i] <= '9' || 'a' <= s[i] <= 'f'
  }

  predicate PipeFree(f: Fields) {
    '|' !in f.task && '|' !in f.actionClass && '|' !in f.server && '|' !in f.method_
  }

  ghost predicate HexMac(mac: Mac, secret: string) {
    forall payload: string :: Hex(mac(secret, payload))
  }

  lemma HexIsPlain(s: string)
    requires Hex(s)
    ensures ':' !in s && Ascii(s)
  {
  }

  lemma PayloadParts(f: Fields, nonce: string)
    requires PipeFree(f)
    ensures Split(Payload(f, nonce), '|') == [f.task, f.actionClass, f.server, f.method_] + Split(nonce, '|')
  {
    var bound := [f.task, f.actionClass, f.server, f.method_];
    SplitOfJoin(bound, nonce, '|');
    assert bound + [nonce] == [f.task, f.actionClass, f.server, f.method_, nonce];
  }

  lemma PartsPayload(payload: string)
    requires |Split(payload, '|')| >= 5
    ensures var parts := Split(payload, '|');
      payload == Payload(Fields(parts[0], parts[1], parts[2], parts[3]), Join(parts[4..], '|'))
  {
    var parts := Split(payload, '|');
    SplitInverse(payload, '|');
    JoinOfTail(parts, 4, '|');
    assert parts[..4] + [Join(parts[4..], '|')]
        == [parts[0], parts[1], parts[2], parts[3], Join(parts[4..], '|')];
  }

  /** The verifier accepts exactly the tokens the signer can produce for those very fields. */
  lemma AcceptsExactlySigned(mac: Mac, secret: string, token: string, f: Fields)
    requires HexMac(mac, secret)
    ensures Verify(mac, secret, token, f)
      <==> PipeFree(f) && exists nonce :: token == Sign(mac, secret, f, nonce)
  {
    if Verify(mac, secret, token, f) {
      var (payload, signature) := CutLast(token, ':');
      var parts := Split(payload, '|');
      SplitInverse(payload, '|');
      PartsPayload(payload);
      assert token == Sign(mac, secret, f, Join(parts[4..], '|'));
    }
    if PipeFree(f) && exists nonce :: token == Sign(mac, secret, f, nonce) {
      var nonce :| token == Sign(mac, secret, f, nonce);
      var payload := Payload(f, nonce);
      PayloadParts(f, nonce);
      HexIsPlain(mac(secret, payload));
      CutLastIsUnique(payload, ':', mac(secret, payload));
      assert token[|payload|] == ':';
    }
  }

  /** It raises exactly on a payload for those very fields under a signature that is not ASCII. */
  lemma RaisesExactlyOnForeignSignatures(mac: Mac, secret: string, token: string, f: Fields)
    ensures CheckToken(mac, secret, token, f).Raises?
      <==> PipeFree(f) && exists nonce, signature ::
             token == Payload(f, nonce) + [':'] + signature && ':' !in signature && !Ascii(signature)
  {
    if CheckToken(mac, secret, token, f).Raises? {
      var (payload, signature) := CutLast(token, ':');
      var parts := Split(payload, '|');
      SplitInverse(payload, '|');
      PartsPayload(payload);
      assert token == Payload(f, Join(parts[4..], '|')) + [':'] + signature;
    }
    if PipeFree(f) {
      forall nonce, signature |
        token == Payload(f, nonce) + [':'] + signature && ':' !in signature && !Ascii(signature)
        ensures CheckToken(mac, secret, token, f).Raises?
      {
        PayloadParts(f, nonce);
        CutLastIsUnique(Payload(f, nonce), ':', signature);
      }
    }
  }

  /** A minted token passes the check for its own fields exactly when none of them holds the
      separator; the nonce does not matter. */
  lemma MintedVerifies(mac: Mac, secret: string, f: Fields, nonce: string)
    requires HexMac(mac, secret)
    ensures Verify(mac, secret, Sign(mac, secret, f, nonce), f) <==> PipeFree(f)
  {
    AcceptsExactlySigned(mac, secret, Sign(mac, secret, f, nonce), f);
  }

  /** ... and for no other task, class, server or method. */
  lemma MintedBinds(mac: Mac, secret: string, f: Fields, nonce: string, other: Fields)
    requires HexMac(mac, secret) && PipeFree(f)
    requires Verify(mac, secret, Sign(mac, secret, f, nonce), other)
    ensures other == f
  {
    var payload := Payload(f, nonce);
    PayloadParts(f, nonce);
    HexIsPlain(mac(secret, payload));
    CutLastIsUnique(payload, ':', mac(secret, payload));
  }
}
