/** EIP-712 digests of the three intents a clone owner signs. */
module Eip712 {
  type byte = x: int | 0 <= x < 256

  type Address = s: seq<byte> | |s| == 20 witness seq(20, _ => 0)

  const TWO256: nat := 0x1_0000000000000000_0000000000000000_0000000000000000_0000000000000000

  const DOMAIN_NAME: string := "GlobmintVault"
  const DOMAIN_VERSION: string := "1"
  const WITHDRAW_TYPE: string :=
    "WithdrawRequest(" + "address to," + "uint256 amount," + "uint256 nonce," + "uint256 deadline)"
  const SET_RECOVERY_TYPE: string :=
    "SetRecovery(" + "address recoveryAddress," + "uint256 nonce," + "uint256 deadline)"
  const TRANSFER_OWNERSHIP_TYPE: string :=
    "TransferOwnership(" + "address newOwner," + "uint256 nonce," + "uint256 deadline)"
  const DOMAIN_TYPE: string :=
    "EIP712Domain(" + "string name," + "string version," + "uint256 chainId," + "address verifyingContract)"

  /** keccak256, of which only the digest length matters here. */
  type Hash = seq<byte> -> seq<byte>

  ghost predicate IsHash(h: Hash) {
    forall x :: |h(x)| == 32
  }

  /** Two different byte strings with one hash. */
  ghost predicate Collision(h: Hash, x: seq<byte>, y: seq<byte>) {
    x != y && h(x) == h(y)
  }

  // ---- Words ----

  function Abs(n: int): nat {
    if n < 0 then -n else n
  }

  /** The last `len` base-256 digits of n, most significant first. */
  function BigEndian(n: nat, len: nat): (s: seq<byte>)
    ensures |s| == len
  {
    if len == 0 then [] else BigEndian(n / 256, len - 1) + [n % 256]
  }

  function FromBigEndian(s: seq<byte>): nat {
    if s == [] then 0 else FromBigEndian(s[..|s| - 1]) * 256 + s[|s| - 1]
  }

  function Pow256(len: nat): nat {
    if len == 0 then 1 else 256 * Pow256(len - 1)
  }

  /** big.Int.FillBytes writes the absolute value. */
  function Uint256(n: int): seq<byte> {
    BigEndian(Abs(n), 32)
  }

  function AddressWord(a: Address): (w: seq<byte>)
    ensures |w| == 32
  {
    seq(12, _ => 0) + a
  }

  function Ascii(s: string): (b: seq<byte>)
    ensures |b| == |s|
  {
    seq(|s|, i requires 0 <= i < |s| => (s[i] as int) % 256)
  }

  lemma {:induction false} BigEndianRoundTrip(n: nat, len: nat)
    requires n < Pow256(len)
    ensures FromBigEndian(BigEndian(n, len)) == n
  {
    if len > 0 {
      BigEndianRoundTrip(n / 256, len - 1);
      assert BigEndian(n, len)[..len - 1] == BigEndian(n / 256, len - 1);
    }
  }

  lemma Pow256Of32()
    ensures Pow256(32) == TWO256
  {
    assert Pow256(8) == 0x1_0000000000000000;
    assert Pow256(16) == 0x1_0000000000000000_0000000000000000 by {
      assert Pow256(12) == Pow256(8) * 0x1_0000_0000;
    }
    assert Pow256(24) == 0x1_0000000000000000_0000000000000000_0000000000000000 by {
      assert Pow256(20) == Pow256(16) * 0x1_0000_0000;
    }
    assert Pow256(28) == Pow256(24) * 0x1_0000_0000;
  }

  lemma Uint256RoundTrip(n: int)
    requires Abs(n) < TWO256
    ensures FromBigEndian(Uint256(n)) == Abs(n)
  {
    Pow256Of32();
    BigEndianRoundTrip(Abs(n), 32);
  }

  // ---- Digests ----

  datatype Intent =
    | Withdraw(to: Address, amount: int, nonce: nat, deadline: int)
    | SetRecovery(recoveryAddress: Address, nonce: nat, deadline: int)
    | TransferOwnership(newOwner: Address, nonce: nat, deadline: int)

  function TypeString(i: Intent): string {
    match i
    case Withdraw(_, _, _, _) => WITHDRAW_TYPE
    case SetRecovery(_, _, _) => SET_RECOVERY_TYPE
    case TransferOwnership(_, _, _) => TRANSFER_OWNERSHIP_TYPE
  }

  /** The encoded members of the intent's struct. */
  function Fields(i: Intent): seq<byte> {
    match i
    case Withdraw(to, amount, nonce, deadline) => AddressWord(to) + Uint256(amount) + Uint256(nonce) + Uint256(deadline)
    case SetRecovery(a, nonce, deadline) => AddressWord(a) + Uint256(nonce) + Uint256(deadline)
    case TransferOwnership(a, nonce, deadline) => AddressWord(a) + Uint256(nonce) + Uint256(deadline)
  }

  function StructPreimage(h: Hash, i: Intent): seq<byte> {
    h(Ascii(TypeString(i))) + Fields(i)
  }

  function DomainPreimage(h: Hash, chainId: int, clone: Address): seq<byte> {
    h(Ascii(DOMAIN_TYPE)) + h(Ascii(DOMAIN_NAME)) + h(Ascii(DOMAIN_VERSION)) + Uint256(chainId) + AddressWord(clone)
  }

  function DigestPreimage(h: Hash, chainId: int, clone: Address, i: Intent): seq<byte> {
    [0x19, 0x01] + h(DomainPreimage(h, chainId, clone)) + h(StructPreimage(h, i))
  }

  function Digest(h: Hash, chainId: int, clone: Address, i: Intent): seq<byte> {
    h(DigestPreimage(h, chainId, clone, i))
  }

  /** Every number fits the 256-bit word it is written to; otherwise the encoder panics. */
  predicate Encodable(chainId: int, i: Intent) {
    && Abs(chainId) < TWO256 && i.nonce < TWO256 && Abs(i.deadline) < TWO256
    && (i.Withdraw? ==> Abs(i.amount) < TWO256)
  }

  /** Same kind of intent and the same members, numbers compared without their sign. */
  predicate SameUpToSign(i: Intent, i': Intent) {
    && i.nonce == i'.nonce && Abs(i.deadline) == Abs(i'.deadline)
    && match i
       case Withdraw(to, amount, _, _) => i'.Withdraw? && to == i'.to && Abs(amount) == Abs(i'.amount)
       case SetRecovery(a, _, _) => i'.SetRecovery? && a == i'.recoveryAddress
       case TransferOwnership(a, _, _) => i'.TransferOwnership? && a == i'.newOwner
  }

  /** A hash collision between two strings that hashing these two intents feeds to `h`. */
  ghost predicate Broken(h: Hash, chainId: int, clone: Address, i: Intent, chainId': int, clone': Address, i': Intent) {
    || Collision(h, DigestPreimage(h, chainId, clone, i), DigestPreimage(h, chainId', clone', i'))
    || Collision(h, DomainPreimage(h, chainId, clone), DomainPreimage(h, chainId', clone'))
    || Collision(h, StructPreimage(h, i), StructPreimage(h, i'))
    || Collision(h, Ascii(TypeString(i)), Ascii(TypeString(i')))
  }

  lemma Halves<T>(a: seq<T>, b: seq<T>, c: seq<T>, d: seq<T>)
    requires a + b == c + d && |a| == |c|
    ensures a == c && b == d
  {
    assert a == (a + b)[..|a|] && b == (a + b)[|a|..];
    assert c == (c + d)[..|a|] && d == (c + d)[|a|..];
  }

  lemma WordsEqual(m: int, n: int)
    requires Abs(m) < TWO256 && Abs(n) < TWO256 && Uint256(m) == Uint256(n)
    ensures Abs(m) == Abs(n)
  {
    Uint256RoundTrip(m);
    Uint256RoundTrip(n);
  }

  lemma AddressWordsEqual(a: Address, b: Address)
    requires AddressWord(a) == AddressWord(b)
    ensures a == b
  {
    var zeros: seq<byte> := seq(12, _ => 0);
    Halves(zeros, a, zeros, b);
  }

  lemma DomainBinds(h: Hash, chainId: int, clone: Address, chainId': int, clone': Address)
    requires IsHash(h) && Abs(chainId) < TWO256 && Abs(chainId') < TWO256
    requires DomainPreimage(h, chainId, clone) == DomainPreimage(h, chainId', clone')
    ensures Abs(chainId) == Abs(chainId') && clone == clone'
  {
    var head := h(Ascii(DOMAIN_TYPE)) + h(Ascii(DOMAIN_NAME)) + h(Ascii(DOMAIN_VERSION));
    Halves(head + Uint256(chainId), AddressWord(clone), head + Uint256(chainId'), AddressWord(clone'));
    Halves(head, Uint256(chainId), head, Uint256(chainId'));
    WordsEqual(chainId, chainId');
    AddressWordsEqual(clone, clone');
  }

  lemma FieldsBind(i: Intent, i': Intent)
    requires Encodable(0, i) && Encodable(0, i')
    requires Fields(i) == Fields(i') && TypeString(i) == TypeString(i')
    ensures SameUpToSign(i, i')
  {
    TypesDiffer();
    match i {
      case Withdraw(to, amount, nonce, deadline) =>
        var a, a' := AddressWord(to), AddressWord(i'.to);
        Halves(a + Uint256(amount) + Uint256(nonce), Uint256(deadline), a' + Uint256(i'.amount) + Uint256(i'.nonce),
               Uint256(i'.deadline));
        Halves(a + Uint256(amount), Uint256(nonce), a' + Uint256(i'.amount), Uint256(i'.nonce));
        Halves(a, Uint256(amount), a', Uint256(i'.amount));
        AddressWordsEqual(to, i'.to);
        WordsEqual(amount, i'.amount);
        WordsEqual(nonce, i'.nonce);
        WordsEqual(deadline, i'.deadline);
      case SetRecovery(x, nonce, deadline) =>
        ThreeWords(x, nonce, deadline, i'.recoveryAddress, i'.nonce, i'.deadline);
      case TransferOwnership(x, nonce, deadline) =>
        ThreeWords(x, nonce, deadline, i'.newOwner, i'.nonce, i'.deadline);
    }
  }

  lemma ThreeWords(x: Address, nonce: nat, deadline: int, x': Address, nonce': nat, deadline': int)
    requires nonce < TWO256 && Abs(deadline) < TWO256 && nonce' < TWO256 && Abs(deadline') < TWO256
    requires AddressWord(x) + Uint256(nonce) + Uint256(deadline) ==
             AddressWord(x') + Uint256(nonce') + Uint256(deadline')
    ensures x == x' && nonce == nonce' && Abs(deadline) == Abs(deadline')
  {
    Halves(AddressWord(x) + Uint256(nonce), Uint256(deadline), AddressWord(x') + Uint256(nonce'), Uint256(deadline'));
    Halves(AddressWord(x), Uint256(nonce), AddressWord(x'), Uint256(nonce'));
    AddressWordsEqual(x, x');
    WordsEqual(nonce, nonce');
    WordsEqual(deadline, deadline');
  }

  /** The three type strings differ already in length. */
  lemma TypesDiffer()
    ensures Ascii(WITHDRAW_TYPE) != Ascii(SET_RECOVERY_TYPE)
    ensures Ascii(WITHDRAW_TYPE) != Ascii(TRANSFER_OWNERSHIP_TYPE)
    ensures Ascii(SET_RECOVERY_TYPE) != Ascii(TRANSFER_OWNERSHIP_TYPE)
  {
    assert |WITHDRAW_TYPE| == 73 && |SET_RECOVERY_TYPE| == 67 && |TRANSFER_OWNERSHIP_TYPE| == 66;
  }

  /**
   A digest authorises one intent: two intents with one digest are of the same
   kind, for the same chain and clone, with the same members up to sign, or
   hashing them exhibits a hash collision.
   */
  lemma DigestBinds(h: Hash, chainId: int, clone: Address, i: Intent, chainId': int, clone': Address, i': Intent)
    requires IsHash(h) && Encodable(chainId, i) && Encodable(chainId', i')
    requires Digest(h, chainId, clone, i) == Digest(h, chainId', clone', i')
    ensures (Abs(chainId) == Abs(chainId') && clone == clone' && SameUpToSign(i, i'))
         || Broken(h, chainId, clone, i, chainId', clone', i')
  {
    if !Broken(h, chainId, clone, i, chainId', clone', i') {
      var d, d' := h(DomainPreimage(h, chainId, clone)), h(DomainPreimage(h, chainId', clone'));
      var s, s' := h(StructPreimage(h, i)), h(StructPreimage(h, i'));
      var p: seq<byte> := [0x19, 0x01];
      Halves(p + d, s, p + d', s');
      Halves(p, d, p, d');
      DomainBinds(h, chainId, clone, chainId', clone');
      Halves(h(Ascii(TypeString(i))), Fields(i), h(Ascii(TypeString(i'))), Fields(i'));
      TypesDiffer();
      FieldsBind(i, i');
    }
  }

  /** Conversely the digest cannot tell a number from its negative. */
  lemma DigestForgetsSign(h: Hash, chainId: int, chainId': int, clone: Address, i: Intent, i': Intent)
    requires Abs(chainId) == Abs(chainId') && SameUpToSign(i, i')
    ensures Digest(h, chainId, clone, i) == Digest(h, chainId', clone, i')
  {
    assert Fields(i) == Fields(i');
  }

  predicate Unsigned(chainId: int, i: Intent) {
    chainId >= 0 && i.deadline >= 0 && (i.Withdraw? ==> i.amount >= 0)
  }

  /**
   For the non-negative values the services use, digests agree exactly when
   chain, clone and intent do, unless the hash function itself is broken.
   */
  lemma DigestInjective(h: Hash, chainId: int, clone: Address, i: Intent, chainId': int, clone': Address, i': Intent)
    requires IsHash(h) && Encodable(chainId, i) && Encodable(chainId', i')
    requires Unsigned(chainId, i) && Unsigned(chainId', i')
    requires !Broken(h, chainId, clone, i, chainId', clone', i')
    ensures Digest(h, chainId, clone, i) == Digest(h, chainId', clone', i')
            <==> chainId == chainId' && clone == clone' && i == i'
  {
    if Digest(h, chainId, clone, i) == Digest(h, chainId', clone', i') {
      DigestBinds(h, chainId, clone, i, chainId', clone', i');
    }
  }

  /** A negative deadline signs the same bytes as its absolute value. */
  lemma NegativeDeadlineCollides(h: Hash, chainId: int, clone: Address, to: Address, amount: int, nonce: nat,
                                 deadline: int)
    requires deadline < 0
    ensures Digest(h, chainId, clone, Withdraw(to, amount, nonce, deadline)) ==
            Digest(h, chainId, clone, Withdraw(to, amount, nonce, -deadline))
  {
    DigestForgetsSign(h, chainId, chainId, clone, Withdraw(to, amount, nonce, deadline),
                      Withdraw(to, amount, nonce, -deadline));
  }

  // ---- Signatures ----

  /** r, s and the normalised recovery id of a 65-byte signature. */
  datatype Parts = Parts(v: byte, r: seq<byte>, s: seq<byte>)

  datatype Parsed = Signature(parts: Parts) | Malformed

  function ParseSignature(raw: seq<byte>): Parsed {
    if |raw| != 65 then Malformed
    else
      var v := if raw[64] == 0 || raw[64] == 1 then raw[64] + 27 else raw[64];
      if v != 27 && v != 28 then Malformed else Signature(Parts(v, raw[0..32], raw[32..64]))
  }

  /** What RecoverSigner hands to the curve: the 27/28 form brought down to 0/1. */
  function Normalized(raw: seq<byte>): seq<byte>
    requires |raw| == 65
  {
    if raw[64] == 27 || raw[64] == 28 then raw[64 := raw[64] - 27] else raw
  }

  function Serialize(p: Parts): seq<byte> {
    p.r + p.s + [p.v]
  }

  /** The (v, r, s) put into a relay recovers to whoever the submitted signature recovered to. */
  lemma RelayedSignatureRecoversAlike(raw: seq<byte>)
    requires ParseSignature(raw).Signature?
    ensures var p := ParseSignature(raw).parts;
            |Serialize(p)| == 65 && Normalized(Serialize(p)) == Normalized(raw) && (p.v == 27 || p.v == 28)
  {
    var p := ParseSignature(raw).parts;
    assert Serialize(p)[..64] == raw[..64];
    assert raw == raw[..64] + [raw[64]];
    assert Serialize(p) == raw[..64] + [p.v];
  }
}
