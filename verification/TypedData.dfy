/**
 EIP-712 for any flat struct: encodeType, encodeData and hashStruct from a list
 of typed members, as the sections of the standard with those names define
 them. The digests of the services are this encoder's.
 */
module TypedData {
  import opened Eip712

  datatype Value = AddressValue(a: Address) | UintValue(n: int) | StringValue(s: string)

  datatype Member = Member(name: string, value: Value)

  function KindOf(v: Value): string {
    match v
    case AddressValue(_) => "address"
    case UintValue(_) => "uint256"
    case StringValue(_) => "string"
  }

  function Declared(m: Member): string {
    KindOf(m.value) + " " + m.name
  }

  function MemberList(ms: seq<Member>): string {
    if ms == [] then ""
    else if |ms| == 1 then Declared(ms[0])
    else Declared(ms[0]) + "," + MemberList(ms[1..])
  }

  function EncodeType(name: string, ms: seq<Member>): string {
    name + "(" + MemberList(ms) + ")"
  }

  /** Strings are encoded by their hash, everything else by its word. */
  function EncodeValue(h: Hash, v: Value): seq<byte> {
    match v
    case AddressValue(a) => AddressWord(a)
    case UintValue(n) => Uint256(n)
    case StringValue(s) => h(Ascii(s))
  }

  function EncodeData(h: Hash, ms: seq<Member>): seq<byte> {
    if ms == [] then [] else EncodeValue(h, ms[0].value) + EncodeData(h, ms[1..])
  }

  function HashStruct(h: Hash, name: string, ms: seq<Member>): seq<byte> {
    h(h(Ascii(EncodeType(name, ms))) + EncodeData(h, ms))
  }

  function TypedDigest(h: Hash, domain: seq<Member>, name: string, ms: seq<Member>): seq<byte> {
    h([0x19, 0x01] + HashStruct(h, "EIP712Domain", domain) + HashStruct(h, name, ms))
  }

  // ---- The structs of the services ----

  function DomainMembers(chainId: int, clone: Address): seq<Member> {
    [Member("name", StringValue("GlobmintVault")), Member("version", StringValue("1")),
     Member("chainId", UintValue(chainId)), Member("verifyingContract", AddressValue(clone))]
  }

  function StructName(i: Intent): string {
    match i
    case Withdraw(_, _, _, _) => "WithdrawRequest"
    case SetRecovery(_, _, _) => "SetRecovery"
    case TransferOwnership(_, _, _) => "TransferOwnership"
  }

  function Members(i: Intent): seq<Member> {
    match i
    case Withdraw(to, amount, nonce, deadline) =>
      [Member("to", AddressValue(to)), Member("amount", UintValue(amount)), Member("nonce", UintValue(nonce)),
       Member("deadline", UintValue(deadline))]
    case SetRecovery(a, nonce, deadline) =>
      [Member("recoveryAddress", AddressValue(a)), Member("nonce", UintValue(nonce)),
       Member("deadline", UintValue(deadline))]
    case TransferOwnership(a, nonce, deadline) =>
      [Member("newOwner", AddressValue(a)), Member("nonce", UintValue(nonce)), Member("deadline", UintValue(deadline))]
  }

  // ---- Lists of three and four members ----

  lemma ThreeMembers(h: Hash, a: Member, b: Member, c: Member)
    ensures MemberList([a, b, c]) == Declared(a) + "," + (Declared(b) + "," + Declared(c))
    ensures EncodeData(h, [a, b, c]) == EncodeValue(h, a.value) + EncodeValue(h, b.value) + EncodeValue(h, c.value)
  {
    var ms := [a, b, c];
    assert ms[1..] == [b, c];
    assert ms[1..][1..] == [c];
    assert EncodeData(h, [c]) == EncodeValue(h, c.value);
    assert EncodeData(h, ms[1..]) == EncodeValue(h, b.value) + EncodeData(h, [c]);
    assert MemberList([c]) == Declared(c);
    assert MemberList(ms[1..]) == Declared(b) + "," + MemberList([c]);
  }

  lemma FourMembers(h: Hash, a: Member, b: Member, c: Member, d: Member)
    ensures MemberList([a, b, c, d]) == Declared(a) + "," + (Declared(b) + "," + (Declared(c) + "," + Declared(d)))
    ensures EncodeData(h, [a, b, c, d]) ==
            EncodeValue(h, a.value) + EncodeValue(h, b.value) + EncodeValue(h, c.value) + EncodeValue(h, d.value)
  {
    assert [a, b, c, d][1..] == [b, c, d];
    ThreeMembers(h, b, c, d);
  }

  // ---- The type strings ----

  lemma GlueThree(name: string, a: string, b: string, c: string)
    ensures (name + "(") + (a + ",") + (b + ",") + (c + ")") == name + "(" + (a + "," + (b + "," + c)) + ")"
  {
  }

  lemma GlueFour(name: string, a: string, b: string, c: string, d: string)
    ensures (name + "(") + (a + ",") + (b + ",") + (c + ",") + (d + ")")
         == name + "(" + (a + "," + (b + "," + (c + "," + d))) + ")"
  {
  }

  lemma NonceAndDeadline()
    ensures "uint256 nonce," == "uint256" + " " + "nonce" + ","
    ensures "uint256 deadline)" == "uint256" + " " + "deadline" + ")"
  {
  }

  lemma WithdrawPieces()
    ensures "WithdrawRequest(" == "WithdrawRequest" + "("
    ensures "address to," == "address" + " " + "to" + "," && "uint256 amount," == "uint256" + " " + "amount" + ","
  {
  }

  lemma SeatPieces()
    ensures "SetRecovery(" == "SetRecovery" + "(" && "TransferOwnership(" == "TransferOwnership" + "("
    ensures "address recoveryAddress," == "address" + " " + "recoveryAddress" + ","
    ensures "address newOwner," == "address" + " " + "newOwner" + ","
  {
  }

  lemma DomainPieces()
    ensures "EIP712Domain(" == "EIP712Domain" + "("
    ensures "string name," == "string" + " " + "name" + "," && "string version," == "string" + " " + "version" + ","
    ensures "uint256 chainId," == "uint256" + " " + "chainId" + ","
    ensures "address verifyingContract)" == "address" + " " + "verifyingContract" + ")"
  {
  }

  lemma DomainTypeString(chainId: int, clone: Address)
    ensures DOMAIN_TYPE == EncodeType("EIP712Domain", DomainMembers(chainId, clone))
  {
    var ms := DomainMembers(chainId, clone);
    FourMembers(x => x, ms[0], ms[1], ms[2], ms[3]);
    DomainPieces();
    GlueFour("EIP712Domain", "string" + " " + "name", "string" + " " + "version", "uint256" + " " + "chainId",
             "address" + " " + "verifyingContract");
  }

  lemma FourParts(head: seq<byte>, a: seq<byte>, b: seq<byte>, c: seq<byte>, d: seq<byte>)
    ensures head + a + b + c + d == head + (a + b + c + d)
  {
  }

  lemma DomainTyped(h: Hash, chainId: int, clone: Address)
    ensures DomainPreimage(h, chainId, clone) ==
            h(Ascii(DOMAIN_TYPE)) + EncodeData(h, DomainMembers(chainId, clone))
  {
    var ms := DomainMembers(chainId, clone);
    FourMembers(h, ms[0], ms[1], ms[2], ms[3]);
    FourParts(h(Ascii(DOMAIN_TYPE)), h(Ascii(DOMAIN_NAME)), h(Ascii(DOMAIN_VERSION)), Uint256(chainId),
              AddressWord(clone));
  }

  lemma WithdrawTyped(h: Hash, i: Intent)
    requires i.Withdraw?
    ensures TypeString(i) == EncodeType(StructName(i), Members(i)) && Fields(i) == EncodeData(h, Members(i))
  {
    var ms := Members(i);
    FourMembers(h, ms[0], ms[1], ms[2], ms[3]);
    WithdrawPieces();
    NonceAndDeadline();
    GlueFour("WithdrawRequest", "address" + " " + "to", "uint256" + " " + "amount", "uint256" + " " + "nonce",
             "uint256" + " " + "deadline");
  }

  lemma SeatTyped(h: Hash, i: Intent)
    requires !i.Withdraw?
    ensures TypeString(i) == EncodeType(StructName(i), Members(i)) && Fields(i) == EncodeData(h, Members(i))
  {
    var ms := Members(i);
    ThreeMembers(h, ms[0], ms[1], ms[2]);
    SeatPieces();
    NonceAndDeadline();
    GlueThree(StructName(i), Declared(ms[0]), "uint256" + " " + "nonce", "uint256" + " " + "deadline");
  }

  /** The type string of every intent is the one its member list gives, and so is everything hashed. */
  lemma StructTyped(h: Hash, i: Intent)
    ensures TypeString(i) == EncodeType(StructName(i), Members(i))
    ensures h(StructPreimage(h, i)) == HashStruct(h, StructName(i), Members(i))
  {
    if i.Withdraw? {
      WithdrawTyped(h, i);
    } else {
      SeatTyped(h, i);
    }
  }

  /** The digest that is signed and checked is the standard's, for every intent, chain and clone. */
  lemma DigestIsTyped(h: Hash, chainId: int, clone: Address, i: Intent)
    ensures Digest(h, chainId, clone, i) == TypedDigest(h, DomainMembers(chainId, clone), StructName(i), Members(i))
  {
    DomainTypeString(chainId, clone);
    DomainTyped(h, chainId, clone);
    StructTyped(h, i);
  }
}
