/** The byte-layout helpers of backend/util.go: amount scaling, the 32-byte
    deposit/withdrawal identifier, fixed-length key decoding, the withdrawal
    message and the checks of an authentication message.  The decoders
    (base58, hex, `strconv.ParseUint`), the regular expression, the random
    source and ed25519 are not part of this model: their outputs are parameters. */
module BackendUtil {
  import opened Binary
  import opened Results

  /** 1 unit = 10^9 raw, 1 cent = 10^7 raw. */
  const RAW_PER_CENT: nat := 10_000_000

  /** The largest amount of cents whose raw value still fits in a uint64. */
  const MAX_EXACT_CENTS: nat := (TWO_64 - 1) / RAW_PER_CENT

  /** `CentsToRaw`: a uint64 multiplication, so the product wraps modulo 2^64.
      The result is exact precisely when the amount is at most MAX_EXACT_CENTS. */
  function CentsToRaw(cents: u64): (raw: u64)
    ensures raw == cents * RAW_PER_CENT <==> cents <= MAX_EXACT_CENTS
    ensures (cents * RAW_PER_CENT - raw) % TWO_64 == 0
  {
    var product := cents * RAW_PER_CENT;
    assert MAX_EXACT_CENTS == 1_844_674_407_370;
    assert cents <= MAX_EXACT_CENTS ==> product < TWO_64;
    assert cents > MAX_EXACT_CENTS ==> product >= TWO_64;
    product % TWO_64
  }

  /** `GenerateID`: 24 random bytes, then the raw amount as a little-endian uint64. */
  method GenerateID(random: seq<byte>, amountRaw: u64) returns (id: seq<byte>)
    requires |random| == 24
    ensures |id| == 32
    ensures id[..24] == random
    ensures Uint64(id[24..]) == amountRaw
  {
    var buf := new byte[32];
    forall i | 0 <= i < 24 {
      buf[i] := random[i];
    }
    PutUint64(buf, 24, amountRaw);
    id := buf[..];
    assert id[24..] == LeBytes(amountRaw, 8);
    LeValueOfBytes(amountRaw, 8);
  }

  /** Why a fixed-length decoder gave up. */
  datatype KeyError = DecodeFailed | WrongLength(required: nat, got: nat)

  /** The shared shape of `DecodeHex32` and the `MustDecode...` helpers: the
      decoded bytes are copied verbatim into an `n`-byte array, provided there
      are exactly `n` of them.  `decoded` is the decoder's output, `None` when
      it reported an error. */
  function DecodeFixed(decoded: Option<seq<byte>>, n: nat): (r: Result<seq<byte>, KeyError>)
    ensures r.Ok? <==> decoded.Some? && |decoded.value| == n
    ensures r.Ok? ==> r.value == decoded.value
    ensures decoded.None? ==> r == Err(DecodeFailed)
    ensures decoded.Some? && |decoded.value| != n ==> r == Err(WrongLength(n, |decoded.value|))
  {
    match decoded
    case None => Err(DecodeFailed)
    case Some(bytes) =>
      if |bytes| != n then Err(WrongLength(n, |bytes|)) else Ok(bytes)
  }

  /** `DecodeHex32`: hex decoding followed by a length check against 32. */
  function DecodeHex32(decoded: Option<seq<byte>>): (r: Result<seq<byte>, KeyError>)
    ensures r.Ok? <==> decoded.Some? && |decoded.value| == 32
    ensures r.Ok? ==> |r.value| == 32 && r.value == decoded.value
  {
    DecodeFixed(decoded, 32)
  }

  /** `MustDecodeBase58PublicKey`; an `Err` stands for the panic. */
  function MustDecodeBase58PublicKey(decoded: Option<seq<byte>>): (r: Result<seq<byte>, KeyError>)
    ensures r.Ok? <==> decoded.Some? && |decoded.value| == 32
    ensures r.Ok? ==> |r.value| == 32 && r.value == decoded.value
  {
    DecodeFixed(decoded, 32)
  }

  /** `MustDecodeHexPrivateKey`; an `Err` stands for the panic. */
  function MustDecodeHexPrivateKey(decoded: Option<seq<byte>>): (r: Result<seq<byte>, KeyError>)
    ensures r.Ok? <==> decoded.Some? && |decoded.value| == 64
    ensures r.Ok? ==> |r.value| == 64 && r.value == decoded.value
  {
    DecodeFixed(decoded, 64)
  }

  /** The message `SignWithdrawal` signs: game address, user key and withdrawal
      identifier, 32 bytes each, in that order. */
  method WithdrawalMessage(game: seq<byte>, user: seq<byte>, id: seq<byte>) returns (message: seq<byte>)
    requires |game| == 32 && |user| == 32 && |id| == 32
    ensures |message| == 96
    ensures message[..32] == game && message[32..64] == user && message[64..] == id
  {
    message := [];
    message := message + game;
    message := message + user;
    message := message + id;
  }

  /** The four capture groups of the authentication message
      "Authenticate user U to game G on ivypowered.com, valid from F to T",
      each already decoded: `None` where base58 decoding or `ParseUint` failed. */
  datatype AuthClaims = AuthClaims(user: Option<seq<byte>>, game: Option<seq<byte>>,
                                   from: Option<u64>, to: Option<u64>)

  datatype AuthError =
    | BadFormat
    | BadUserEncoding | UserKeyLength(got: nat)
    | BadGameEncoding | GameKeyLength(got: nat)
    | WrongGame
    | BadFrom | BadTo
    | Expired(from: u64, to: u64, now: u64)
    | BadSignatureEncoding | SignatureLength(got: nat)
    | BadSignature

  const PUBLIC_KEY_SIZE: nat := 32
  const SIGNATURE_SIZE: nat := 64

  /** Both keys decode to 32 bytes and the game key is the configured one. */
  predicate KeysOk(game: seq<byte>, c: AuthClaims)
  {
    && c.user.Some? && |c.user.value| == PUBLIC_KEY_SIZE
    && c.game.Some? && |c.game.value| == PUBLIC_KEY_SIZE
    && c.game.value == game
  }

  /** Both bounds parse and `now` lies in the closed window between them. */
  predicate WindowOk(c: AuthClaims, now: u64)
  {
    c.from.Some? && c.to.Some? && c.from.value <= now <= c.to.value
  }

  /** Every condition under which `VerifyMessage` accepts, stated at once;
      `ed25519Verify(key, sig)` is the signature check of the message text. */
  predicate Accepted(game: seq<byte>, claims: Option<AuthClaims>, now: u64, signature: Option<seq<byte>>,
                     ed25519Verify: (seq<byte>, seq<byte>) -> bool)
  {
    && claims.Some?
    && KeysOk(game, claims.value)
    && WindowOk(claims.value, now)
    && signature.Some? && |signature.value| == SIGNATURE_SIZE
    && ed25519Verify(claims.value.user.value, signature.value)
  }

  /** `VerifyMessage`: a chain of early-returning checks.  `claims` is the
      regular-expression match (`None` when it fails), `now` the clock,
      `signature` the hex-decoded signature (`None` on a decoding error). */
  method VerifyMessage(game: seq<byte>, claims: Option<AuthClaims>, now: u64, signature: Option<seq<byte>>,
                       ed25519Verify: (seq<byte>, seq<byte>) -> bool)
    returns (r: Result<seq<byte>, AuthError>)
    requires |game| == PUBLIC_KEY_SIZE
    ensures r.Ok? <==> Accepted(game, claims, now, signature, ed25519Verify)
    ensures r.Ok? ==> |r.value| == PUBLIC_KEY_SIZE && r.value == claims.value.user.value
    ensures claims.None? ==> r == Err(BadFormat)
    ensures claims.Some? && claims.value.user.Some? && |claims.value.user.value| != PUBLIC_KEY_SIZE
            ==> r == Err(UserKeyLength(|claims.value.user.value|))
    ensures claims.Some? && claims.value.user.Some? && |claims.value.user.value| == PUBLIC_KEY_SIZE
            && claims.value.game.Some? && |claims.value.game.value| != PUBLIC_KEY_SIZE
            ==> r == Err(GameKeyLength(|claims.value.game.value|))
    ensures claims.Some? && claims.value.user.Some? && |claims.value.user.value| == PUBLIC_KEY_SIZE
            && claims.value.game.Some? && |claims.value.game.value| == PUBLIC_KEY_SIZE
            && claims.value.game.value != game
            ==> r == Err(WrongGame)
    ensures claims.Some? && KeysOk(game, claims.value) && claims.value.from.Some? && claims.value.to.Some?
            && (now < claims.value.from.value || now > claims.value.to.value)
            ==> r == Err(Expired(claims.value.from.value, claims.value.to.value, now))
    ensures claims.Some? && KeysOk(game, claims.value) && WindowOk(claims.value, now)
            && signature.Some? && |signature.value| != SIGNATURE_SIZE
            ==> r == Err(SignatureLength(|signature.value|))
  {
    if claims.None? {
      return Err(BadFormat);
    }
    var c := claims.value;
    if c.user.None? {
      return Err(BadUserEncoding);
    }
    var userBytes := c.user.value;
    if |userBytes| != PUBLIC_KEY_SIZE {
      return Err(UserKeyLength(|userBytes|));
    }
    if c.game.None? {
      return Err(BadGameEncoding);
    }
    var gameBytes := c.game.value;
    if |gameBytes| != PUBLIC_KEY_SIZE {
      return Err(GameKeyLength(|gameBytes|));
    }
    if gameBytes != game {
      return Err(WrongGame);
    }
    if c.from.None? {
      return Err(BadFrom);
    }
    var from := c.from.value;
    if c.to.None? {
      return Err(BadTo);
    }
    var to := c.to.value;
    if now < from || now > to {
      return Err(Expired(from, to, now));
    }
    if signature.None? {
      return Err(BadSignatureEncoding);
    }
    var sig := signature.value;
    if |sig| != SIGNATURE_SIZE {
      return Err(SignatureLength(|sig|));
    }
    if !ed25519Verify(userBytes, sig) {
      return Err(BadSignature);
    }
    return Ok(userBytes);
  }
}
