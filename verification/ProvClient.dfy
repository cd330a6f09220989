/** The client end of security scheme 1, and what the two ends' handshake guarantees. */
module ProvClient {
  import opened Common
  import opened Keystream
  import opened Security1

  datatype Client = Client(priv: Bytes, pub: Bytes, devicePub: Bytes, cipher: Option<Cipher>)

  /** The client mixes in the whole proof of possession, however long it is. */
  function ClientDerive(su: Suite, c: Client, pop: Bytes, iv: Bytes, e: Psa): (Client, Status) {
    if !e.agree || (pop != [] && !e.hash) || !e.importKey then (c, Err(EIO))
    else if !e.setup || !e.setIv then (c.(cipher := None), Err(EIO))
    else (c.(cipher := Some(Cipher(SessionKey(su, c.priv, c.devicePub, pop), iv, 0))), Ok(()))
  }

  function ClientXform(su: Suite, c: Client, data: Bytes, psa: bool): (Client, Result<Bytes>) {
    if c.cipher.None? || !psa then (c, Err(EIO))
    else (c.(cipher := Some(c.cipher.value.Advance(|data|))), Ok(Xform(su, c.cipher.value, data)))
  }

  /** The client's derivation fails exactly if a PSA call it needs fails, the hash being needed only with
      a proof of possession; a failed set-up leaves no cipher, an earlier failure the old one. */
  lemma DerivationFails(su: Suite, c: Client, pop: Bytes, iv: Bytes, e: Psa)
    ensures
      var (c', status) := ClientDerive(su, c, pop, iv, e);
      var keyed := e.agree && (pop != [] ==> e.hash) && e.importKey;
      && (status == Ok(()) <==> keyed && e.setup && e.setIv)
      && (status != Ok(()) ==> status == Err(EIO) && c' == c.(cipher := if keyed then None else c.cipher))
  {}

  /** A derivation that works arms a key that hides the secret agreed with the device, under the
      whole proof of possession. */
  lemma ClientArmsSecret(su: Suite, c: Client, pop: Bytes, iv: Bytes, e: Psa)
    requires ClientDerive(su, c, pop, iv, e).1.Ok?
    ensures
      var c' := ClientDerive(su, c, pop, iv, e).0;
      && c'.cipher.Some?
      && c'.cipher.value.pos == 0 && c'.cipher.value.iv == iv
      && KeyHides(su, c'.cipher.value.key, pop, su.Agree(c.priv, c.devicePub))
  {
    SessionKeyHides(su, c.priv, c.devicePub, pop);
  }

  /** The final check of Response1 against the client's own public key. */
  function CheckResponse1(su: Suite, c: Client, r: SessionReply, psa: bool): (Client, Status) {
    if !r.Response1? || |r.deviceVerify| != PUBKEY_LEN then (c, Err(EPROTO))
    else
      var (c1, check) := ClientXform(su, c, r.deviceVerify, psa);
      if check.Err? then (c1, Err(check.error))
      else (c1, if check.value == c.pub then Ok(()) else Err(EACCES))
  }

  /** The client takes a reply for the device's proof exactly if it is a Response1 of 32 bytes that its
      own keystream decrypts to its own public key. */
  lemma ProofChecked(su: Suite, c: Client, r: SessionReply, psa: bool)
    ensures CheckResponse1(su, c, r, psa).1 == Ok(())
            <==> r.Response1? && |r.deviceVerify| == 32 && psa && c.cipher.Some?
                 && Xform(su, c.cipher.value, r.deviceVerify) == c.pub
  {}

  /** Command1 and its answer, once the client's keystream is armed. */
  function VerifyExchange(su: Suite, c: Client, s: Sec1, ce: Psa, e1: Psa): (Client, Sec1, Status) {
    var (c1, verify) := ClientXform(su, c, c.devicePub, ce.verify);
    if verify.Err? then (c1, s, Err(verify.error))
    else
      var (s1, r1) := Handshake(su, s, Command1(verify.value), e1);
      if r1.Err? then (c1, s1, Err(r1.error))
      else
        var (c2, status) := CheckResponse1(su, c1, r1.value, ce.answer);
        (c2, s1, status)
  }

  /** The whole handshake of a client and a device over a transport that delivers. The faults
      of the client's own PSA calls are ce, those of the device's two messages e0 and e1. */
  function ClientHandshake(su: Suite, c: Client, s: Sec1, pop: Bytes, ce: Psa, e0: Psa, e1: Psa)
    : (Client, Sec1, Status)
  {
    if ce.random.None? then (c, s, Err(EIO))
    else
      var c0 := c.(priv := ce.random.value, pub := su.Public(ce.random.value));
      var (s0, r0) := Handshake(su, s, Command0(c0.pub), e0);
      if r0.Err? then (c0, s0, Err(r0.error))
      else if !r0.value.Response0? || |r0.value.devicePubkey| != PUBKEY_LEN
              || |r0.value.deviceRandom| != RANDOM_LEN then (c0, s0, Err(EPROTO))
      else
        var (c1, d) := ClientDerive(su, c0.(devicePub := r0.value.devicePubkey), pop,
                                    r0.value.deviceRandom, ce);
        if d.Err? then (c1, s0, Err(d.error))
        else VerifyExchange(su, c1, s0, ce, e1)
  }

  /** No PSA call of the message fails, and the response is allocated. */
  predicate Healthy(e: Psa) {
    e.random.Some? && e.agree && e.hash && e.importKey && e.setup && e.setIv && e.verify &&
    e.answer && e.encode
  }

  /** The keystreams the two ends arm when both hold key material and one IV. */
  function DeviceStream(su: Suite, s: Sec1, clientKey: Bytes, iv: Bytes): Cipher {
    Cipher(SessionKey(su, s.priv, su.Public(clientKey), s.pop), iv, 0)
  }

  function ClientStream(su: Suite, s: Sec1, clientKey: Bytes, pop: Bytes, iv: Bytes): Cipher {
    Cipher(SessionKey(su, clientKey, s.pub, pop), iv, 0)
  }

  /** With no failing PSA call, from any device state: the device accepts exactly when the two
      keystreams agree on bytes 0..31, and the handshake as a whole succeeds exactly when they
      agree on 0..63; both ends then stand at offset 64. */
  lemma HandshakeOutcome(su: Suite, c: Client, s: Sec1, pop: Bytes, ce: Psa, e0: Psa, e1: Psa)
    requires WellFormed(s)
    requires Healthy(ce) && Healthy(e0) && Healthy(e1) && |e0.random.value| == RANDOM_LEN
    ensures
      var (c', s', status) := ClientHandshake(su, c, s, pop, ce, e0, e1);
      var kd := DeviceStream(su, s, ce.random.value, e0.random.value);
      var kc := ClientStream(su, s, ce.random.value, pop, e0.random.value);
      && (s'.phase == Done <==> AgreeOn(su, kd, kc, 0, 32))
      && (status == Ok(()) <==> AgreeOn(su, kd, kc, 0, 64))
      && (s'.phase != Done ==> status == Err(EACCES) && s'.phase == Cmd0Done
                               && s'.cipher == Some(kd.Advance(32)))
      && (s'.phase == Done ==> s'.cipher == Some(kd.Advance(64)) && c'.cipher == Some(kc.Advance(64)))
  {
    var kd := DeviceStream(su, s, ce.random.value, e0.random.value);
    var kc := ClientStream(su, s, ce.random.value, pop, e0.random.value);
    var clientPub := su.Public(ce.random.value);
    XformInverse(su, kc, kd, s.pub);
    XformInverse(su, kd.Advance(32), kc.Advance(32), clientPub);
    AgreeSymmetric(su, kd, kc, 0, 32);
    AgreeSplit(su, kd, kc);
  }

  /** Whatever fails, a handshake that returns 0 leaves the device done and both ends at offset 64,
      with keystreams that agree on the bytes used. */
  lemma SuccessIsMutual(su: Suite, c: Client, s: Sec1, pop: Bytes, ce: Psa, e0: Psa, e1: Psa)
    requires WellFormed(s)
    requires ClientHandshake(su, c, s, pop, ce, e0, e1).2 == Ok(())
    ensures
      var (c', s', _) := ClientHandshake(su, c, s, pop, ce, e0, e1);
      && s'.phase == Done && s'.cipher.Some? && c'.cipher.Some?
      && s'.cipher.value.pos == c'.cipher.value.pos == 64
      && s'.cipher.value.iv == c'.cipher.value.iv
      && AgreeOn(su, s'.cipher.value, c'.cipher.value, 0, 64)
  {
    var kd := DeviceStream(su, s, ce.random.value, e0.random.value);
    var kc := ClientStream(su, s, ce.random.value, pop, e0.random.value);
    var clientPub := su.Public(ce.random.value);
    XformInverse(su, kc, kd, s.pub);
    XformInverse(su, kd.Advance(32), kc.Advance(32), clientPub);
    AgreeSymmetric(su, kd, kc, 0, 32);
    AgreeSplit(su, kd, kc);
  }

  lemma AgreeSymmetric(su: Suite, c: Cipher, d: Cipher, lo: nat, hi: nat)
    ensures AgreeOn(su, c, d, lo, hi) <==> AgreeOn(su, d, c, lo, hi)
  {}

  lemma AgreeSplit(su: Suite, c: Cipher, d: Cipher)
    ensures AgreeOn(su, c, d, 0, 64) <==> AgreeOn(su, c, d, 0, 32) && AgreeOn(su, c, d, 32, 64)
    ensures AgreeOn(su, c.Advance(32), d.Advance(32), 32, 64) <==> AgreeOn(su, c, d, 32, 64)
  {}

  /** The two ends hold one session key exactly when the device's and the client's proofs of
      possession put the same mask on the shared secret. */
  lemma KeysAgree(su: Suite, devicePop: Bytes, devicePriv: Bytes, clientPop: Bytes, clientPriv: Bytes)
    requires su.Symmetric()
    ensures SessionKey(su, devicePriv, su.Public(clientPriv), devicePop)
              == SessionKey(su, clientPriv, su.Public(devicePriv), clientPop)
            <==> PopMask(su, devicePop) == PopMask(su, clientPop)
  {
    var secret := su.Agree(devicePriv, su.Public(clientPriv));
    assert secret == su.Agree(clientPriv, su.Public(devicePriv));
    XorZero(secret);
    XorInjective(secret, PopMask(su, devicePop), PopMask(su, clientPop));
  }

  /** One proof of possession configured on both ends gives one key when it fits the device's
      buffer. A longer one, which the device cuts and the client does not, still gives one key
      exactly when the hash does not see the difference. */
  lemma ConfiguredPopKeysAgree(su: Suite, pop: Bytes, devicePriv: Bytes, clientPriv: Bytes)
    requires su.Symmetric()
    ensures SessionKey(su, devicePriv, su.Public(clientPriv), DevicePop(pop))
              == SessionKey(su, clientPriv, su.Public(devicePriv), pop)
            <==> |pop| < POP_MAX || su.Hash(pop[..POP_MAX - 1]) == su.Hash(pop)
  {
    KeysAgree(su, DevicePop(pop), devicePriv, pop, clientPriv);
  }

  /** Two ends that one proof of possession of 64 bytes keeps apart, with a hash that tells it from
      its first 63. */
  lemma LongPopDisagrees(priv: Bytes) returns (su: Suite, pop: Bytes)
    ensures su.Symmetric() && |pop| == POP_MAX
    ensures SessionKey(su, priv, su.Public(priv), DevicePop(pop)) != SessionKey(su, priv, su.Public(priv), pop)
  {
    var zeroes: Block32, ones: Block32 := seq(32, _ => 0), seq(32, _ => 1);
    su := Suite(_ => zeroes, (_, _) => zeroes, (b: Bytes) => if |b| == POP_MAX then ones else zeroes,
                (_, _, _) => 0);
    pop := seq(POP_MAX, _ => 0);
    assert su.Hash(pop)[0] != su.Hash(pop[..POP_MAX - 1])[0];
    ConfiguredPopKeysAgree(su, pop, priv, priv);
  }

  /** The handshake between a device and a client configured with one proof of possession of
      at most 63 bytes, or with none, succeeds: one key, state Done, offset 64 on both ends. */
  lemma MatchingPopSucceeds(su: Suite, c: Client, pop: Bytes, devicePriv: Bytes, ce: Psa, e0: Psa, e1: Psa)
    requires su.Symmetric() && |pop| < POP_MAX
    requires Healthy(ce) && Healthy(e0) && Healthy(e1) && |e0.random.value| == RANDOM_LEN
    ensures
      var (c', s', status) := ClientHandshake(su, c, Fresh(su, pop, devicePriv), pop, ce, e0, e1);
      && status == Ok(())
      && s'.phase == Done
      && s'.cipher == c'.cipher
      && s'.cipher.Some? && s'.cipher.value.pos == 64
  {
    ConfiguredPopKeysAgree(su, pop, devicePriv, ce.random.value);
    HandshakeOutcome(su, c, Fresh(su, pop, devicePriv), pop, ce, e0, e1);
  }

  /** The client object; its cipher advances with every call. */
  class ProvisioningClient {
    const su: Suite
    var key: Bytes
    var pubkey: Bytes
    var devicePubkey: Bytes
    var cipher: Option<Cipher>

    ghost function State(): Client
      reads this
    {
      Client(key, pubkey, devicePubkey, cipher)
    }

    constructor (su: Suite)
      ensures this.su == su
      ensures State() == Client([], seq(32, _ => 0), seq(32, _ => 0), None)
    {
      this.su := su;
      key, pubkey, devicePubkey, cipher := [], seq(32, _ => 0), seq(32, _ => 0), None;
    }

    method Derive(pop: Bytes, iv: Bytes, e: Psa) returns (r: Status)
      modifies this`cipher
      ensures (State(), r) == ClientDerive(su, old(State()), pop, iv, e)
    {
      if !e.agree {
        return Err(EIO);
      }
      var secret := su.Agree(key, devicePubkey);
      var shared := new bv8[32](i requires 0 <= i < 32 => secret[i]);
      assert shared[..] == secret;
      if |pop| > 0 {
        if !e.hash {
          return Err(EIO);
        }
        MixInPlace(shared, su.Hash(pop));
      }
      if !e.importKey {
        return Err(EIO);
      }
      cipher := None;
      if !e.setup || !e.setIv {
        return Err(EIO);
      }
      cipher := Some(Cipher(shared[..], iv, 0));
      r := Ok(());
    }

    method Transform(data: Bytes, psa: bool) returns (r: Result<Bytes>)
      modifies this`cipher
      ensures (State(), r) == ClientXform(su, old(State()), data, psa)
    {
      if cipher.None? || !psa {
        return Err(EIO);
      }
      r := Ok(Xform(su, cipher.value, data));
      cipher := Some(cipher.value.Advance(|data|));
    }

    method Connect(device: Sec1Context, pop: Bytes, ce: Psa, e0: Psa, e1: Psa) returns (r: Status)
      requires device.Valid() && device.su == su
      modifies this, device
      ensures device.Valid()
      ensures (State(), device.State(), r)
              == ClientHandshake(su, old(State()), old(device.State()), pop, ce, e0, e1)
    {
      if ce.random.None? {
        return Err(EIO);
      }
      key := ce.random.value;
      pubkey := su.Public(key);
      var r0 := device.OnMessage(Command0(pubkey), e0);
      if r0.Err? {
        return Err(r0.error);
      }
      if !r0.value.Response0? || |r0.value.devicePubkey| != PUBKEY_LEN ||
         |r0.value.deviceRandom| != RANDOM_LEN {
        return Err(EPROTO);
      }
      devicePubkey := r0.value.devicePubkey;
      var d := Derive(pop, r0.value.deviceRandom, ce);
      if d.Err? {
        return Err(d.error);
      }
      var verify := Transform(devicePubkey, ce.verify);
      if verify.Err? {
        return Err(verify.error);
      }
      var r1 := device.OnMessage(Command1(verify.value), e1);
      if r1.Err? {
        return Err(r1.error);
      }
      if !r1.value.Response1? || |r1.value.deviceVerify| != PUBKEY_LEN {
        return Err(EPROTO);
      }
      var check := Transform(r1.value.deviceVerify, ce.answer);
      if check.Err? {
        return Err(check.error);
      }
      r := if check.value == pubkey then Ok(()) else Err(EACCES);
    }
  }
}
