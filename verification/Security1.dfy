/** Security scheme 1 on the device: the handshake and the persistent keystream. */
module Security1 {
  import opened Common
  import opened Keystream

  const POP_MAX := 64

  datatype Phase = Init | Cmd0Done | Done

  /** The per-session security context. A cipher that is not armed is None. */
  datatype Sec1 = Sec1(
    phase: Phase,
    pop: Bytes,
    priv: Bytes,
    pub: Bytes,
    clientPub: Bytes,
    iv: Bytes,
    cipher: Option<Cipher>)

  /** What the PSA calls and the response allocation of one handshake message do.
      A failing call consumes no keystream. */
  datatype Psa = Psa(
    random: Option<Bytes>,
    agree: bool,
    hash: bool,
    importKey: bool,
    setup: bool,
    setIv: bool,
    verify: bool,
    answer: bool,
    encode: bool)

  /** A session message after protobuf decoding. */
  datatype SessionMsg =
    | Undecodable
    | OtherScheme
    | Command0(clientPubkey: Bytes)
    | Command1(clientVerify: Bytes)
    | OtherMsg

  datatype SessionReply =
    | Response0(devicePubkey: Bytes, deviceRandom: Bytes)
    | Response1(deviceVerify: Bytes)

  /** The part of the configured proof of possession the device keeps: at most 63 bytes. */
  function DevicePop(pop: Bytes): (kept: Bytes)
    ensures kept <= pop && |kept| == if |pop| < POP_MAX then |pop| else POP_MAX - 1
  {
    if |pop| < POP_MAX then pop else pop[..POP_MAX - 1]
  }

  /** The mask a proof of possession puts on the shared secret. */
  function PopMask(su: Suite, pop: Bytes): Block32 {
    if pop == [] then seq(32, _ => 0) else su.Hash(pop)
  }

  function SessionKey(su: Suite, priv: Bytes, peer: Bytes, pop: Bytes): Bytes {
    if pop == [] then su.Agree(priv, peer) else Xor(su.Agree(priv, peer), su.Hash(pop))
  }

  function Fresh(su: Suite, pop: Bytes, priv: Bytes): Sec1 {
    Sec1(Init, DevicePop(pop), priv, su.Public(priv), seq(32, _ => 0), seq(16, _ => 0), None)
  }

  function Derive(su: Suite, s: Sec1, e: Psa): (Sec1, Status) {
    if !e.agree || (s.pop != [] && !e.hash) || !e.importKey then (s, Err(EIO))
    else if !e.setup || !e.setIv then (s.(cipher := None), Err(EIO))
    else (s.(cipher := Some(Cipher(SessionKey(su, s.priv, s.clientPub, s.pop), s.iv, 0))), Ok(()))
  }

  function HandleCmd0(su: Suite, s: Sec1, pubkey: Bytes, e: Psa): (Sec1, Result<SessionReply>) {
    if |pubkey| != PUBKEY_LEN then (s, Err(EINVAL))
    else if e.random.None? then (s.(clientPub := pubkey), Err(EIO))
    else
      var (d, status) := Derive(su, s.(clientPub := pubkey, iv := e.random.value), e);
      if status.Err? then (d, Err(status.error))
      else (d.(phase := Cmd0Done), if e.encode then Ok(Response0(d.pub, d.iv)) else Err(ENOMEM))
  }

  function HandleCmd1(su: Suite, s: Sec1, verify: Bytes, e: Psa): (Sec1, Result<SessionReply>) {
    if s.phase != Cmd0Done then (s, Err(EACCES))
    else if |verify| != PUBKEY_LEN then (s, Err(EINVAL))
    else if s.cipher.None? || !e.verify then (s, Err(EIO))
    else
      var c := s.cipher.value;
      var s1 := s.(cipher := Some(c.Advance(PUBKEY_LEN)));
      if Xform(su, c, verify) != s.pub then (s1, Err(EACCES))
      else if !e.answer then (s1, Err(EIO))
      else
        var out := Xform(su, c.Advance(PUBKEY_LEN), s.clientPub);
        (s.(cipher := Some(c.Advance(PUBKEY_LEN).Advance(|s.clientPub|)), phase := Done),
         if e.encode then Ok(Response1(out)) else Err(ENOMEM))
  }

  function Handshake(su: Suite, s: Sec1, m: SessionMsg, e: Psa): (Sec1, Result<SessionReply>) {
    match m
    case Command0(pubkey) => HandleCmd0(su, s, pubkey, e)
    case Command1(verify) => HandleCmd1(su, s, verify, e)
    case _ => (s, Err(EINVAL))
  }

  /** A Command0 of the right length whose random IV is drawn fails exactly if a PSA call it needs fails,
      the hash being needed only with a proof of possession. Then the phase stays; the old keystream
      goes on only if the failure came before the new key could be armed. */
  lemma Command0Fails(su: Suite, s: Sec1, pubkey: Bytes, e: Psa)
    requires |pubkey| == PUBKEY_LEN && e.random.Some?
    ensures
      var (s', r) := HandleCmd0(su, s, pubkey, e);
      var keyed := e.agree && (s.pop != [] ==> e.hash) && e.importKey;
      && (r == Err(EIO) <==> !(keyed && e.setup && e.setIv))
      && (r == Err(EIO) ==> s'.phase == s.phase && s'.cipher == if keyed then None else s.cipher)
  {}

  /** The armed key is the agreed secret under the mask of the proof of possession: taking the mask
      off gives the secret, and without one the key is the secret itself. */
  predicate KeyHides(su: Suite, key: Bytes, pop: Bytes, secret: Block32) {
    |key| == 32 && Xor(key, PopMask(su, pop)) == secret && (pop == [] ==> key == secret)
  }

  lemma SessionKeyHides(su: Suite, priv: Bytes, peer: Bytes, pop: Bytes)
    ensures KeyHides(su, SessionKey(su, priv, peer, pop), pop, su.Agree(priv, peer))
  {
    XorZero(su.Agree(priv, peer));
    if pop != [] {
      XorTwice(su.Agree(priv, peer), su.Hash(pop));
    }
  }

  /** An accepted Command0 arms the keystream at its start with the new random IV and a key that
      hides the secret agreed with the sender of the command. */
  lemma Command0ArmsSecret(su: Suite, s: Sec1, pubkey: Bytes, e: Psa)
    requires HandleCmd0(su, s, pubkey, e).1.Ok?
    ensures
      var s' := HandleCmd0(su, s, pubkey, e).0;
      && e.random.Some? && s'.cipher.Some?
      && s'.cipher.value.pos == 0 && s'.cipher.value.iv == e.random.value
      && KeyHides(su, s'.cipher.value.key, s.pop, su.Agree(s.priv, pubkey))
  {
    SessionKeyHides(su, s.priv, pubkey, s.pop);
  }

  /** Two accepted Command0s under one proof of possession arm one key if and only if they agreed on
      one secret. */
  lemma SameKeySameSecret(su: Suite, s: Sec1, p: Bytes, e: Psa, t: Sec1, q: Bytes, f: Psa)
    requires s.pop == t.pop
    requires HandleCmd0(su, s, p, e).1.Ok? && HandleCmd0(su, t, q, f).1.Ok?
    ensures
      var (s', t') := (HandleCmd0(su, s, p, e).0, HandleCmd0(su, t, q, f).0);
      && s'.cipher.Some? && t'.cipher.Some?
      && (s'.cipher.value.key == t'.cipher.value.key <==> su.Agree(s.priv, p) == su.Agree(t.priv, q))
  {
    Command0ArmsSecret(su, s, p, e);
    Command0ArmsSecret(su, t, q, f);
    if su.Agree(s.priv, p) == su.Agree(t.priv, q) {
      var k, l := HandleCmd0(su, s, p, e).0.cipher.value.key, HandleCmd0(su, t, q, f).0.cipher.value.key;
      XorTwice(k, PopMask(su, s.pop));
      XorTwice(l, PopMask(su, s.pop));
    }
  }

  /** Encryption and decryption of a payload: the same function. */
  function Crypt(su: Suite, s: Sec1, data: Bytes, psa: bool): (Sec1, Result<Bytes>) {
    if s.phase != Done then (s, Err(EACCES))
    else if s.cipher.None? || !psa then (s, Err(EIO))
    else (s.(cipher := Some(s.cipher.value.Advance(|data|))), Ok(Xform(su, s.cipher.value, data)))
  }

  /** What every message keeps: key sizes, and a keystream that only Command0 arms. */
  predicate WellFormed(s: Sec1) {
    && |s.pub| == |s.clientPub| == PUBKEY_LEN
    && |s.pop| < POP_MAX
    && (s.phase == Init ==> s.cipher.None?)
  }

  lemma HandshakeKeepsWellFormed(su: Suite, s: Sec1, m: SessionMsg, e: Psa)
    requires WellFormed(s)
    ensures WellFormed(Handshake(su, s, m, e).0)
  {}

  /** The context object, updated in place by each message. */
  class Sec1Context {
    const su: Suite
    var phase: Phase
    var pop: Bytes
    var deviceKey: Bytes
    var devicePubkey: Bytes
    var clientPubkey: Bytes
    var deviceRandom: Bytes
    var cipher: Option<Cipher>

    ghost function State(): Sec1
      reads this
    {
      Sec1(phase, pop, deviceKey, devicePubkey, clientPubkey, deviceRandom, cipher)
    }

    ghost predicate Valid()
      reads this
    {
      WellFormed(State())
    }

    constructor (su: Suite, pop: Bytes, key: Bytes)
      ensures Valid() && this.su == su
      ensures State() == Fresh(su, pop, key)
    {
      this.su := su;
      phase := Init;
      this.pop := if |pop| < POP_MAX - 1 then pop else pop[..POP_MAX - 1];
      deviceKey := key;
      devicePubkey := su.Public(key);
      clientPubkey := seq(32, _ => 0);
      deviceRandom := seq(16, _ => 0);
      cipher := None;
      new;
      assert |pop| == POP_MAX - 1 ==> pop[..POP_MAX - 1] == pop;
    }

    method DeriveSessionKey(e: Psa) returns (r: Status)
      requires Valid()
      modifies this`cipher
      ensures (State(), r) == Derive(su, old(State()), e)
    {
      if !e.agree {
        return Err(EIO);
      }
      var secret := su.Agree(deviceKey, clientPubkey);
      var shared := new bv8[32](i requires 0 <= i < 32 => secret[i]);
      assert shared[..] == secret;
      if |pop| > 0 {
        if !e.hash {
          return Err(EIO);
        }
        MixInPlace(shared, su.Hash(pop));
      }
      if !e.importKey {
        return Err(EIO);
      }
      cipher := None;
      if !e.setup || !e.setIv {
        return Err(EIO);
      }
      cipher := Some(Cipher(shared[..], deviceRandom, 0));
      r := Ok(());
    }

    method CtrXform(data: Bytes, psa: bool) returns (r: Result<Bytes>)
      modifies this`cipher
      ensures old(cipher).None? || !psa ==> r == Err(EIO) && cipher == old(cipher)
      ensures old(cipher).Some? && psa ==>
                && r == Ok(Xform(su, old(cipher).value, data))
                && cipher == Some(old(cipher).value.Advance(|data|))
    {
      if cipher.None? || !psa {
        return Err(EIO);
      }
      r := Ok(Xform(su, cipher.value, data));
      cipher := Some(cipher.value.Advance(|data|));
    }

    method Command0(pubkey: Bytes, e: Psa) returns (r: Result<SessionReply>)
      requires Valid()
      modifies this
      ensures (State(), r) == HandleCmd0(su, old(State()), pubkey, e)
    {
      if |pubkey| != PUBKEY_LEN {
        return Err(EINVAL);
      }
      clientPubkey := pubkey;
      if e.random.None? {
        return Err(EIO);
      }
      deviceRandom := e.random.value;
      var d := DeriveSessionKey(e);
      if d.Err? {
        return Err(d.error);
      }
      phase := Cmd0Done;
      r := if e.encode then Ok(Response0(devicePubkey, deviceRandom)) else Err(ENOMEM);
    }

    method Command1(verify: Bytes, e: Psa) returns (r: Result<SessionReply>)
      requires Valid()
      modifies this
      ensures (State(), r) == HandleCmd1(su, old(State()), verify, e)
    {
      if phase != Cmd0Done {
        return Err(EACCES);
      }
      if |verify| != PUBKEY_LEN {
        return Err(EINVAL);
      }
      var check := CtrXform(verify, e.verify);
      if check.Err? {
        return Err(check.error);
      }
      if check.value != devicePubkey {
        return Err(EACCES);
      }
      var out := CtrXform(clientPubkey, e.answer);
      if out.Err? {
        return Err(out.error);
      }
      phase := Done;
      r := if e.encode then Ok(Response1(out.value)) else Err(ENOMEM);
    }

    method OnMessage(m: SessionMsg, e: Psa) returns (r: Result<SessionReply>)
      requires Valid()
      modifies this
      ensures Valid()
      ensures (State(), r) == Handshake(su, old(State()), m, e)
    {
      HandshakeKeepsWellFormed(su, State(), m, e);
      match m {
        case Command0(pubkey) => r := Command0(pubkey, e);
        case Command1(verify) => r := Command1(verify, e);
        case _ => r := Err(EINVAL);
      }
    }

    method Encrypt(data: Bytes, psa: bool) returns (r: Result<Bytes>)
      requires Valid()
      modifies this
      ensures Valid()
      ensures (State(), r) == Crypt(su, old(State()), data, psa)
    {
      if phase != Done {
        return Err(EACCES);
      }
      r := CtrXform(data, psa);
    }
  }
}
