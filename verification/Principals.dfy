/** Canonical pipe keys: `server/src/principal-utils.ts`, the identifiers of
    `server/src/observer-parser.ts`, and the tuple that both parties of a pipe sign
    (`server/src/counterparty-service.ts`).

    A principal is its text. Its consensus serialization is a parameter `ser` about which
    nothing is assumed: where injectivity matters it shows up in the statement. */
module Principals {
  import opened Wrappers
  import opened Octets

  type Principal = string

  datatype PipeKey = PipeKey(token: Option<Principal>, principal1: Principal, principal2: Principal)

  // ---------- Byte order ----------

  /** Lexicographic order on octet strings, a proper prefix coming first. */
  predicate Before(a: Bytes, b: Bytes) {
    |b| > 0 && (|a| == 0 || a[0] < b[0] || (a[0] == b[0] && Before(a[1..], b[1..])))
  }

  lemma {:induction false} BeforeIsTotalOrder(a: Bytes, b: Bytes, c: Bytes)
    ensures !Before(a, a)
    ensures Before(a, b) || Before(b, a) || a == b
    ensures !(Before(a, b) && Before(b, a))
    ensures Before(a, b) && Before(b, c) ==> Before(a, c)
    decreases |a|
  {
    if |a| > 0 {
      var b', c' := if |b| > 0 then b[1..] else [], if |c| > 0 then c[1..] else [];
      BeforeIsTotalOrder(a[1..], b', c');
      if |b| > 0 && a[0] == b[0] && a[1..] == b' {
        assert a == [a[0]] + a[1..] && b == [b[0]] + b[1..];
      }
    }
  }

  lemma {:induction false} BeforeSkipsCommonPrefix(a: Bytes, b: Bytes, i: nat)
    requires i <= |a| && i <= |b| && a[..i] == b[..i]
    ensures Before(a, b) <==> Before(a[i..], b[i..])
    decreases i
  {
    if i > 0 {
      assert a[0] == a[..i][0] == b[..i][0] == b[0];
      assert a[1..][..i - 1] == a[..i][1..] && b[1..][..i - 1] == b[..i][1..];
      BeforeSkipsCommonPrefix(a[1..], b[1..], i - 1);
      assert a[1..][i - 1..] == a[i..] && b[1..][i - 1..] == b[i..];
    } else {
      assert a[0..] == a && b[0..] == b;
    }
  }

  method CompareBytes(left: Bytes, right: Bytes) returns (order: int)
    ensures order == -1 || order == 0 || order == 1
    ensures order == -1 <==> Before(left, right)
    ensures order == 1 <==> Before(right, left)
    ensures order == 0 <==> left == right
  {
    BeforeIsTotalOrder(left, right, left);
    BeforeIsTotalOrder(right, left, right);
    var minLength := if |left| < |right| then |left| else |right|;
    var index := 0;
    while index < minLength
      invariant 0 <= index <= minLength
      invariant left[..index] == right[..index]
    {
      BeforeSkipsCommonPrefix(left, right, index);
      BeforeSkipsCommonPrefix(right, left, index);
      if left[index] < right[index] {
        return -1;
      }
      if left[index] > right[index] {
        return 1;
      }
      index := index + 1;
    }
    BeforeSkipsCommonPrefix(left, right, index);
    BeforeSkipsCommonPrefix(right, left, index);
    if |left| < |right| {
      return -1;
    }
    if |left| > |right| {
      return 1;
    }
    assert left == left[..index] && right == right[..index];
    return 0;
  }

  // ---------- Canonical key ----------

  /** `compareBytes(left, right) <= 0` keeps the arguments in place; equal principals are an error. */
  function CanonicalPipeKey(ser: Principal -> Bytes, token: Option<Principal>, left: Principal, right: Principal)
    : (key: Result<PipeKey, string>)
  {
    if left == right then Err("forPrincipal and withPrincipal must be different")
    else if !Before(ser(right), ser(left)) then Ok(PipeKey(token, left, right))
    else Ok(PipeKey(token, right, left))
  }

  /** There is a key exactly for different principals: the same two, the lower serialization first. */
  lemma CanonicalKeyIsOrdered(ser: Principal -> Bytes, token: Option<Principal>, left: Principal, right: Principal)
    ensures var key := CanonicalPipeKey(ser, token, left, right);
            && (key.Ok? <==> left != right)
            && (key.Ok? ==>
                  && key.value.token == token && {key.value.principal1, key.value.principal2} == {left, right}
                  && (Before(ser(key.value.principal1), ser(key.value.principal2))
                      || ser(key.value.principal1) == ser(key.value.principal2)))
  {
    BeforeIsTotalOrder(ser(left), ser(right), ser(left));
  }

  /** The key is independent of the argument order exactly when the two serializations differ. */
  lemma KeyIgnoresOrderIffSerializationsDiffer(
    ser: Principal -> Bytes, token: Option<Principal>, left: Principal, right: Principal)
    requires left != right
    ensures CanonicalPipeKey(ser, token, left, right) == CanonicalPipeKey(ser, token, right, left)
       <==> ser(left) != ser(right)
  {
    BeforeIsTotalOrder(ser(left), ser(right), ser(left));
  }

  /** A key determines its token and the unordered pair it was built from. */
  lemma KeyDeterminesParts(
    ser: Principal -> Bytes, t1: Option<Principal>, a: Principal, b: Principal,
    t2: Option<Principal>, c: Principal, d: Principal)
    requires a != b && c != d
    ensures CanonicalPipeKey(ser, t1, a, b) == CanonicalPipeKey(ser, t2, c, d)
            ==> t1 == t2 && {a, b} == {c, d}
    ensures t1 == t2 && {a, b} == {c, d} && ser(a) != ser(b)
            ==> CanonicalPipeKey(ser, t1, a, b) == CanonicalPipeKey(ser, t2, c, d)
  {
    if t1 == t2 && {a, b} == {c, d} && ser(a) != ser(b) {
      KeyIgnoresOrderIffSerializationsDiffer(ser, t1, a, b);
      assert a in {c, d} && b in {c, d};
    }
  }

  // ---------- The signed tuple ----------

  /** What one party asks to have signed, seen from `forPrincipal`. */
  datatype View = View(
    token: Option<Principal>, forPrincipal: Principal, withPrincipal: Principal,
    myBalance: nat, theirBalance: nat, nonce: nat, action: nat, actor: Principal,
    secret: Option<Bytes>, validAfter: Option<nat>)

  datatype SignedTuple = SignedTuple(
    token: Option<Principal>, principal1: Principal, principal2: Principal,
    balance1: nat, balance2: nat, nonce: nat, action: nat, actor: Principal,
    hashedSecret: Option<Bytes>, validAfter: Option<nat>)

  /** The same state seen from the other side of the pipe. */
  function OtherSide(v: View): View {
    v.(forPrincipal := v.withPrincipal, withPrincipal := v.forPrincipal,
    myBalance := v.theirBalance, theirBalance := v.myBalance)
  }

  /** `request.token ? someCV(...) : noneCV()`: an empty token is none. */
  function TokenArg(token: Option<Principal>): Option<Principal> {
    if token == Some("") then None else token
  }

  function BuildSignedTuple(ser: Principal -> Bytes, v: View): Result<SignedTuple, string> {
    match CanonicalPipeKey(ser, v.token, v.forPrincipal, v.withPrincipal)
    case Err(e) => Err(e)
    case Ok(key) =>
      var mineFirst := key.principal1 == v.forPrincipal;
      Ok(SignedTuple(
           TokenArg(v.token), key.principal1, key.principal2,
           if mineFirst then v.myBalance else v.theirBalance,
           if mineFirst then v.theirBalance else v.myBalance,
           v.nonce, v.action, v.actor, v.secret, v.validAfter))
  }

  /** Both parties sign the same tuple exactly when their serializations differ. */
  lemma BothSidesSignTheSameTuple(ser: Principal -> Bytes, v: View)
    requires v.forPrincipal != v.withPrincipal
    ensures BuildSignedTuple(ser, v) == BuildSignedTuple(ser, OtherSide(v))
       <==> ser(v.forPrincipal) != ser(v.withPrincipal)
  {
    KeyIgnoresOrderIffSerializationsDiffer(ser, v.token, v.forPrincipal, v.withPrincipal);
  }

  /** The tuple leaves no freedom: views of one owner have the same tuple exactly when they agree, up to
      an empty token standing for none. */
  lemma SignedTupleDeterminesView(ser: Principal -> Bytes, v: View, w: View)
    requires v.forPrincipal != v.withPrincipal && w.forPrincipal == v.forPrincipal && w.withPrincipal != w.forPrincipal
    ensures BuildSignedTuple(ser, v) == BuildSignedTuple(ser, w)
       <==> v.(token := TokenArg(v.token)) == w.(token := TokenArg(w.token))
  {
  }

  // ---------- Identifiers ----------

  predicate SeparatorFree(s: string) { '|' !in s }

  /** `pipeKey.token || "stx"`. */
  function TokenText(token: Option<Principal>): string {
    if token == None || token == Some("") then "stx" else token.value
  }

  function PipeIdText(key: PipeKey): string {
    TokenText(key.token) + "|" + key.principal1 + "|" + key.principal2
  }

  function StateIdText(contractId: string, key: PipeKey, owner: Principal): string {
    contractId + "|" + PipeIdText(key) + "|" + owner
  }

  lemma {:induction false} FirstPartIsDetermined(a: string, x: string, b: string, y: string)
    requires SeparatorFree(a) && SeparatorFree(b)
    requires a + "|" + x == b + "|" + y
    ensures a == b && x == y
  {
    var s, t := a + "|" + x, b + "|" + y;
    assert s[|a|] == '|' && t[|b|] == '|' && s == t;
    assert forall i :: 0 <= i < |a| ==> s[i] == a[i];
    assert forall i :: 0 <= i < |b| ==> t[i] == b[i];
    assert |a| == |b|;
    assert s[..|a|] == a && t[..|a|] == b && s[|a| + 1..] == x && t[|b| + 1..] == y;
  }

  /** The same token, or both stand for the native one: absent, empty, or called "stx". */
  predicate SameTokenText(a: Option<Principal>, b: Option<Principal>) {
    a == b || (a in {None, Some(""), Some("stx")} && b in {None, Some(""), Some("stx")})
  }

  /** For separator-free parts, pipe ids coincide exactly when the principals and the token texts do. */
  lemma PipeIdsCoincideIff(k: PipeKey, l: PipeKey)
    requires SeparatorFree(k.principal1) && SeparatorFree(l.principal1)
    requires SeparatorFree(TokenText(k.token)) && SeparatorFree(TokenText(l.token))
    ensures PipeIdText(k) == PipeIdText(l)
       <==> SameTokenText(k.token, l.token) && k.principal1 == l.principal1 && k.principal2 == l.principal2
  {
    if PipeIdText(k) == PipeIdText(l) {
      var x, y := k.principal1 + "|" + k.principal2, l.principal1 + "|" + l.principal2;
      assert TokenText(k.token) + "|" + x == PipeIdText(k);
      assert TokenText(l.token) + "|" + y == PipeIdText(l);
      FirstPartIsDetermined(TokenText(k.token), x, TokenText(l.token), y);
      FirstPartIsDetermined(k.principal1, k.principal2, l.principal1, l.principal2);
    }
  }

  predicate Parts(contractId: string, key: PipeKey) {
    SeparatorFree(contractId) && SeparatorFree(TokenText(key.token))
    && SeparatorFree(key.principal1) && SeparatorFree(key.principal2)
  }

  /** State ids identify (contract, token, principals, owner), unless a token is really called "stx"
      while the other one is absent: the only way two different keys share an id. */
  lemma StateIdsCoincideIff(
    c1: string, k1: PipeKey, o1: Principal, c2: string, k2: PipeKey, o2: Principal)
    requires Parts(c1, k1) && Parts(c2, k2)
    ensures StateIdText(c1, k1, o1) == StateIdText(c2, k2, o2)
       <==> c1 == c2 && o1 == o2 && k1.principal1 == k2.principal1 && k1.principal2 == k2.principal2
            && SameTokenText(k1.token, k2.token)
    ensures k1.token !in {Some("stx"), Some("")} && k2.token !in {Some("stx"), Some("")}
            ==> (StateIdText(c1, k1, o1) == StateIdText(c2, k2, o2) <==> c1 == c2 && k1 == k2 && o1 == o2)
  {
    if StateIdText(c1, k1, o1) == StateIdText(c2, k2, o2) {
      StateIdFromTheLeft(c1, k1, o1);
      StateIdFromTheLeft(c2, k2, o2);
      FirstPartIsDetermined(c1, AfterContract(k1, o1), c2, AfterContract(k2, o2));
      FirstPartIsDetermined(TokenText(k1.token), AfterToken(k1, o1), TokenText(k2.token), AfterToken(k2, o2));
      FirstPartIsDetermined(k1.principal1, k1.principal2 + "|" + o1, k2.principal1, k2.principal2 + "|" + o2);
      FirstPartIsDetermined(k1.principal2, o1, k2.principal2, o2);
    }
  }

  function AfterToken(k: PipeKey, o: Principal): string { k.principal1 + "|" + (k.principal2 + "|" + o) }
  function AfterContract(k: PipeKey, o: Principal): string { TokenText(k.token) + "|" + AfterToken(k, o) }

  lemma StateIdFromTheLeft(c: string, k: PipeKey, o: Principal)
    ensures StateIdText(c, k, o) == c + "|" + AfterContract(k, o)
  {
  }

  /** The exception is real: these two keys differ and collide. */
  lemma TokenNamedStxCollides(contractId: string, a: Principal, b: Principal, owner: Principal)
    ensures PipeKey(None, a, b) != PipeKey(Some("stx"), a, b)
    ensures StateIdText(contractId, PipeKey(None, a, b), owner) ==
            StateIdText(contractId, PipeKey(Some("stx"), a, b), owner)
  {
  }
}
