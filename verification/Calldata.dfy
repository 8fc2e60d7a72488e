/** The byte buffers relayed to a clone, filled in place, and their decoding. */
module Calldata {
  import opened Eip712

  datatype WithdrawRelay = WithdrawRelay(to: Address, amount: int, nonce: nat, deadline: int, sig: Parts)

  /** setRecoveryAddressBySig and transferOwnershipBySig: an address, the nonce and the deadline. */
  datatype SeatRelay = SeatRelay(address: Address, nonce: nat, deadline: int, sig: Parts)

  const WITHDRAW_SELECTOR: seq<byte> := [0x4a, 0x5b, 0x1f, 0x51]
  const SET_RECOVERY_SELECTOR: seq<byte> := [0xb2, 0x05, 0x9d, 0x18]
  const TRANSFER_OWNERSHIP_SELECTOR: seq<byte> := [0x6d, 0xb4, 0x64, 0xf1]

  predicate ValidSig(p: Parts) {
    |p.r| == 32 && |p.s| == 32
  }

  /** The numbers fit their words; FillBytes panics on anything larger. */
  predicate FitsWords(amount: int, nonce: nat, deadline: int) {
    Abs(amount) < TWO256 && nonce < TWO256 && Abs(deadline) < TWO256
  }

  // ---- What the payloads are ----

  function ByteWord(v: byte): (w: seq<byte>)
    ensures |w| == 32
  {
    seq(31, _ => 0) + [v]
  }

  function Tail(p: Parts): seq<byte> {
    ByteWord(p.v) + p.r + p.s
  }

  function WithdrawPayload(r: WithdrawRelay): seq<byte> {
    WITHDRAW_SELECTOR + Fields(Withdraw(r.to, r.amount, r.nonce, r.deadline)) + Tail(r.sig)
  }

  function SeatPayload(selector: seq<byte>, r: SeatRelay): seq<byte> {
    selector + Fields(SetRecovery(r.address, r.nonce, r.deadline)) + Tail(r.sig)
  }

  // ---- How they are filled ----

  method Copy(data: array<byte>, at: nat, src: seq<byte>)
    requires at + |src| <= data.Length
    modifies data
    ensures data[..at + |src|] == old(data[..at]) + src
    ensures forall k :: at + |src| <= k < data.Length ==> data[k] == old(data[k])
  {
    forall k | 0 <= k < |src| {
      data[at + k] := src[k];
    }
  }

  /** Write |n| big-endian into data[lo..hi], least significant byte last. */
  method FillBytes(data: array<byte>, lo: nat, hi: nat, n: int)
    requires lo <= hi <= data.Length && Abs(n) < Pow256(hi - lo)
    modifies data
    ensures data[..hi] == old(data[..lo]) + BigEndian(Abs(n), hi - lo)
    ensures forall k :: hi <= k < data.Length ==> data[k] == old(data[k])
  {
    var i, m := hi, Abs(n);
    while i > lo
      invariant lo <= i <= hi && m >= 0
      invariant BigEndian(Abs(n), hi - lo) == BigEndian(m, i - lo) + data[i..hi]
      invariant forall k :: 0 <= k < data.Length && !(i <= k < hi) ==> data[k] == old(data[k])
    {
      i := i - 1;
      ghost var rest := data[i + 1..hi];
      data[i] := m % 256;
      assert data[i..hi] == [m % 256] + rest;
      m := m / 256;
    }
  }

  /** v right-aligned in its word, then r and s. */
  method PutSignature(data: array<byte>, at: nat, p: Parts)
    requires at + 96 <= data.Length && ValidSig(p)
    requires forall k :: at <= k < at + 32 ==> data[k] == 0
    modifies data
    ensures data[..at + 96] == old(data[..at]) + Tail(p)
  {
    data[at + 31] := p.v;
    assert data[..at + 32] == old(data[..at]) + ByteWord(p.v);
    Copy(data, at + 32, p.r);
    Copy(data, at + 64, p.s);
    assert data[..at + 96] == old(data[..at]) + ByteWord(p.v) + p.r + p.s;
  }

  /** The selector, then the address right-aligned in its word; the rest stays zero. */
  method PutAddress(data: array<byte>, selector: seq<byte>, a: Address)
    requires |selector| == 4 && data.Length >= 36 && forall k :: 0 <= k < data.Length ==> data[k] == 0
    modifies data
    ensures data[..36] == selector + AddressWord(a)
    ensures forall k :: 36 <= k < data.Length ==> data[k] == 0
  {
    Copy(data, 0, selector);
    assert data[..4] == selector;
    assert data[..16] == selector + seq(12, _ => 0);
    Copy(data, 4 + 12, a);
  }

  /** The nonce, the deadline and the signature, which end every payload. */
  method PutTail(data: array<byte>, at: nat, nonce: nat, deadline: int, p: Parts)
    requires at + 160 == data.Length && ValidSig(p) && nonce < TWO256 && Abs(deadline) < TWO256
    requires forall k :: at <= k < data.Length ==> data[k] == 0
    modifies data
    ensures data[..] == old(data[..at]) + Uint256(nonce) + Uint256(deadline) + Tail(p)
  {
    Pow256Of32();
    FillBytes(data, at, at + 32, nonce);
    FillBytes(data, at + 32, at + 64, deadline);
    PutSignature(data, at + 64, p);
    assert data[..] == data[..at + 160];
  }

  method EncodeWithdrawWithSig(r: WithdrawRelay) returns (data: array<byte>)
    requires ValidSig(r.sig) && FitsWords(r.amount, r.nonce, r.deadline)
    ensures fresh(data) && data[..] == WithdrawPayload(r)
  {
    Pow256Of32();
    data := new byte[4 + 32 * 7](_ => 0);
    PutAddress(data, WITHDRAW_SELECTOR, r.to);
    FillBytes(data, 4 + 32, 4 + 64, r.amount);
    PutTail(data, 4 + 64, r.nonce, r.deadline, r.sig);
    WithdrawJoins(r);
  }

  lemma WithdrawJoins(r: WithdrawRelay)
    ensures WithdrawPayload(r) ==
            WITHDRAW_SELECTOR + AddressWord(r.to) + Uint256(r.amount) + Uint256(r.nonce) + Uint256(r.deadline) +
            Tail(r.sig)
  {
  }

  lemma SeatJoins(selector: seq<byte>, r: SeatRelay)
    ensures selector + AddressWord(r.address) + Uint256(r.nonce) + Uint256(r.deadline) + Tail(r.sig) ==
            SeatPayload(selector, r)
  {
  }

  /** The two encoders that seat an address differ only in their selector. */
  method EncodeSeatBySig(selector: seq<byte>, r: SeatRelay) returns (data: array<byte>)
    requires |selector| == 4 && ValidSig(r.sig) && FitsWords(0, r.nonce, r.deadline)
    ensures fresh(data) && data[..] == SeatPayload(selector, r)
  {
    data := new byte[4 + 32 * 6](_ => 0);
    PutAddress(data, selector, r.address);
    PutTail(data, 4 + 32, r.nonce, r.deadline, r.sig);
    SeatJoins(selector, r);
  }

  // ---- How a contract reads them ----

  /** The k-th 32-byte argument word. */
  function Word(data: seq<byte>, k: nat): seq<byte>
    requires 4 + 32 * (k + 1) <= |data|
  {
    data[4 + 32 * k..4 + 32 * (k + 1)]
  }

  function DecodeSig(data: seq<byte>, k: nat): Parts
    requires 4 + 32 * (k + 3) <= |data|
  {
    Parts(Word(data, k)[31], Word(data, k + 1), Word(data, k + 2))
  }

  function DecodeWithdraw(data: seq<byte>): WithdrawRelay
    requires |data| == 228
  {
    WithdrawRelay(Word(data, 0)[12..], FromBigEndian(Word(data, 1)), FromBigEndian(Word(data, 2)),
                  FromBigEndian(Word(data, 3)), DecodeSig(data, 4))
  }

  function DecodeSeat(data: seq<byte>): SeatRelay
    requires |data| == 196
  {
    SeatRelay(Word(data, 0)[12..], FromBigEndian(Word(data, 1)), FromBigEndian(Word(data, 2)), DecodeSig(data, 3))
  }

  lemma WithdrawWords(r: WithdrawRelay)
    requires ValidSig(r.sig)
    ensures var d := WithdrawPayload(r);
            && |d| == 228 && d[..4] == WITHDRAW_SELECTOR
            && Word(d, 0) == AddressWord(r.to) && Word(d, 1) == Uint256(r.amount)
            && Word(d, 2) == Uint256(r.nonce) && Word(d, 3) == Uint256(r.deadline)
            && Word(d, 4) == ByteWord(r.sig.v) && Word(d, 5) == r.sig.r && Word(d, 6) == r.sig.s
  {
  }

  lemma SeatWords(selector: seq<byte>, r: SeatRelay)
    requires |selector| == 4 && ValidSig(r.sig)
    ensures var d := SeatPayload(selector, r);
            && |d| == 196 && d[..4] == selector
            && Word(d, 0) == AddressWord(r.address) && Word(d, 1) == Uint256(r.nonce)
            && Word(d, 2) == Uint256(r.deadline)
            && Word(d, 3) == ByteWord(r.sig.v) && Word(d, 4) == r.sig.r && Word(d, 5) == r.sig.s
  {
  }

  /** The contract reads back exactly the relay iff its amount and deadline are not negative. */
  lemma WithdrawRoundTripIff(r: WithdrawRelay)
    requires ValidSig(r.sig) && FitsWords(r.amount, r.nonce, r.deadline)
    ensures |WithdrawPayload(r)| == 228
    ensures DecodeWithdraw(WithdrawPayload(r)) == r <==> r.amount >= 0 && r.deadline >= 0
  {
    WithdrawWords(r);
    Uint256RoundTrip(r.amount);
    Uint256RoundTrip(r.nonce);
    Uint256RoundTrip(r.deadline);
    assert AddressWord(r.to)[12..] == r.to;
  }

  lemma SeatRoundTripIff(selector: seq<byte>, r: SeatRelay)
    requires |selector| == 4 && ValidSig(r.sig) && FitsWords(0, r.nonce, r.deadline)
    ensures |SeatPayload(selector, r)| == 196
    ensures DecodeSeat(SeatPayload(selector, r)) == r <==> r.deadline >= 0
  {
    SeatWords(selector, r);
    Uint256RoundTrip(r.nonce);
    Uint256RoundTrip(r.deadline);
    assert AddressWord(r.address)[12..] == r.address;
  }

  /**
   The argument words of a withdrawal relay are byte for byte the members its
   digest hashes: what the contract executes is what was signed.
   */
  lemma RelayedWordsAreSignedWords(h: Hash, r: WithdrawRelay)
    requires IsHash(h) && ValidSig(r.sig)
    ensures |WithdrawPayload(r)| == 228
    ensures StructPreimage(h, Withdraw(r.to, r.amount, r.nonce, r.deadline))[32..] == WithdrawPayload(r)[4..132]
  {
    var f := Fields(Withdraw(r.to, r.amount, r.nonce, r.deadline));
    assert WithdrawPayload(r) == WITHDRAW_SELECTOR + f + Tail(r.sig);
  }

  lemma SeatedWordsAreSignedWords(h: Hash, r: SeatRelay)
    requires IsHash(h) && ValidSig(r.sig)
    ensures |SeatPayload(SET_RECOVERY_SELECTOR, r)| == |SeatPayload(TRANSFER_OWNERSHIP_SELECTOR, r)| == 196
    ensures StructPreimage(h, SetRecovery(r.address, r.nonce, r.deadline))[32..] ==
            SeatPayload(SET_RECOVERY_SELECTOR, r)[4..100]
    ensures StructPreimage(h, TransferOwnership(r.address, r.nonce, r.deadline))[32..] ==
            SeatPayload(TRANSFER_OWNERSHIP_SELECTOR, r)[4..100]
  {
    var f := Fields(SetRecovery(r.address, r.nonce, r.deadline));
    assert f == Fields(TransferOwnership(r.address, r.nonce, r.deadline));
    assert SeatPayload(SET_RECOVERY_SELECTOR, r) == SET_RECOVERY_SELECTOR + f + Tail(r.sig);
    assert SeatPayload(TRANSFER_OWNERSHIP_SELECTOR, r) == TRANSFER_OWNERSHIP_SELECTOR + f + Tail(r.sig);
  }
}
