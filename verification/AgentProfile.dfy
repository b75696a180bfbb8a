/**
 The agent's catalog profile: partial updates (`Agent.update` and `Agent.create` in
 agent.entity.ts), the stored form of the document (agent_document_normalize.ts) and the catalog
 comparison (agent_profile_catalog_compare.ts). Status and row timestamps play no part.
 */
module AgentProfile {
  import opened Options

  /** A patch field: absent, `null`, or a value. */
  datatype Patch<T> = Keep | Clear | To(value: T)

  type Text = Option<string>

  datatype DocumentType = Cpf | Cnpj

  datatype Address = Address(street: Text, number: Text, district: Text, postalCode: Text, city: Text, state: Text)

  datatype AddressPatch =
    | KeepAddress
    | ClearAddress
    | Each(street: Patch<string>, number: Patch<string>, district: Patch<string>, postalCode: Patch<string>,
           city: Patch<string>, state: Patch<string>)

  datatype Profile = Profile(name: string, tradeName: Text, document: Text, documentType: Option<DocumentType>,
                             phone: Text, mobile: Text, email: Text, address: Address, notes: Text)

  datatype ProfilePatch = ProfilePatch(name: Option<string>, tradeName: Patch<string>, document: Patch<string>,
                                       documentType: Patch<DocumentType>, phone: Patch<string>,
                                       mobile: Patch<string>, email: Patch<string>, address: AddressPatch,
                                       notes: Patch<string>)

  const NoAddress: Address := Address(None, None, None, None, None, None)

  function Patched<T>(current: Option<T>, p: Patch<T>): Option<T> {
    match p
    case Keep => current
    case Clear => None
    case To(v) => Some(v)
  }

  function PatchedAddress(a: Address, p: AddressPatch): Address {
    match p
    case KeepAddress => a
    case ClearAddress => NoAddress
    case Each(street, number, district, postalCode, city, state) =>
      Address(Patched(a.street, street), Patched(a.number, number), Patched(a.district, district),
              Patched(a.postalCode, postalCode), Patched(a.city, city), Patched(a.state, state))
  }

  function Update(p: Profile, patch: ProfilePatch): Profile {
    Profile(if patch.name.Some? then patch.name.value else p.name,
            Patched(p.tradeName, patch.tradeName),
            Patched(p.document, patch.document),
            Patched(p.documentType, patch.documentType),
            Patched(p.phone, patch.phone),
            Patched(p.mobile, patch.mobile),
            Patched(p.email, patch.email),
            PatchedAddress(p.address, patch.address),
            Patched(p.notes, patch.notes))
  }

  /** What a field of a new record holds: only a value counts. */
  function Given<T>(p: Patch<T>): Option<T> {
    if p.To? then Some(p.value) else None
  }

  function GivenAddress(p: AddressPatch): Address {
    match p
    case Each(street, number, district, postalCode, city, state) =>
      Address(Given(street), Given(number), Given(district), Given(postalCode), Given(city), Given(state))
    case _ => NoAddress
  }

  /** `createAgentFromPatch`: the name is trimmed and must not be empty then. */
  function Create(patch: ProfilePatch): Option<Profile> {
    if patch.name.None? || Trim(patch.name.value) == "" then None
    else Some(Profile(Trim(patch.name.value), Given(patch.tradeName), Given(patch.document),
                      Given(patch.documentType), Given(patch.phone), Given(patch.mobile), Given(patch.email),
                      GivenAddress(patch.address), Given(patch.notes)))
  }

  // ------------------------------------------------------------------ text normal forms

  /** White space and line terminators as ECMA-262 trims them. */
  predicate IsSpace(c: char) {
    || '\t' <= c <= '\r' || c == ' ' || c == '\U{00A0}' || c == '\U{1680}' || '\U{2000}' <= c <= '\U{200A}'
    || c == '\U{2028}' || c == '\U{2029}' || c == '\U{202F}' || c == '\U{205F}' || c == '\U{3000}'
    || c == '\U{FEFF}'
  }

  /** The white space characters, one by one. */
  lemma SpaceTable(c: char)
    ensures IsSpace(c) <==> c in {
      '\U{0009}', '\U{000A}', '\U{000B}', '\U{000C}', '\U{000D}', '\U{0020}', '\U{00A0}', '\U{1680}', '\U{2000}',
      '\U{2001}', '\U{2002}', '\U{2003}', '\U{2004}', '\U{2005}', '\U{2006}', '\U{2007}', '\U{2008}', '\U{2009}',
      '\U{200A}', '\U{2028}', '\U{2029}', '\U{202F}', '\U{205F}', '\U{3000}', '\U{FEFF}' }
  {
  }

  function Trim(s: string): (r: string)
    ensures r == "" || (!IsSpace(r[0]) && !IsSpace(r[|r| - 1]))
    decreases |s|
  {
    if s == "" then s
    else if IsSpace(s[0]) then Trim(s[1..])
    else if IsSpace(s[|s| - 1]) then Trim(s[..|s| - 1])
    else s
  }

  /** Trimming is settled after once. */
  lemma TrimTwice(s: string)
    ensures Trim(Trim(s)) == Trim(s)
  {
  }

  function Digits(s: string): (r: string)
    ensures |r| <= |s| && forall i :: 0 <= i < |r| ==> '0' <= r[i] <= '9'
    decreases |s|
  {
    if s == "" then "" else
    var n := |s| - 1;
    Digits(s[..n]) + (if '0' <= s[n] <= '9' then [s[n]] else [])
  }

  /** Digits only, at most twenty; no digits means no document. */
  function StoredDocument(d: Text): Text {
    if d.None? then None else
    var digits := Digits(d.value);
    if digits == "" then None
    else if |digits| > 20 then Some(digits[..20]) else Some(digits)
  }

  lemma {:induction false} DigitsOfDigits(s: string)
    requires forall i :: 0 <= i < |s| ==> '0' <= s[i] <= '9'
    ensures Digits(s) == s
    decreases |s|
  {
    if s != "" {
      var n := |s| - 1;
      DigitsOfDigits(s[..n]);
      assert s == s[..n] + [s[n]];
    }
  }

  /** The stored form is its own stored form. */
  lemma StoredTwice(d: Text)
    ensures StoredDocument(StoredDocument(d)) == StoredDocument(d)
  {
    var once := StoredDocument(d);
    if once.Some? {
      DigitsOfDigits(once.value);
    }
  }

  function Stored(p: Profile): Profile {
    p.(document := StoredDocument(p.document))
  }

  // ------------------------------------------------------------------------ comparison

  /** An empty text counts as none. */
  function Norm(t: Text): Text {
    if t == Some("") then None else t
  }

  predicate ContentEqual(a: Profile, b: Profile) {
    && a.name == b.name
    && Norm(a.tradeName) == Norm(b.tradeName)
    && Norm(a.document) == Norm(b.document)
    && a.documentType == b.documentType
    && Norm(a.phone) == Norm(b.phone)
    && Norm(a.mobile) == Norm(b.mobile)
    && Norm(a.email) == Norm(b.email)
    && Norm(a.address.street) == Norm(b.address.street)
    && Norm(a.address.number) == Norm(b.address.number)
    && Norm(a.address.district) == Norm(b.address.district)
    && Norm(a.address.postalCode) == Norm(b.address.postalCode)
    && Norm(a.address.city) == Norm(b.address.city)
    && Norm(a.address.state) == Norm(b.address.state)
    && Norm(a.notes) == Norm(b.notes)
  }

  /** Applying a patch to its own result changes nothing. */
  lemma UpdateTwice(p: Profile, patch: ProfilePatch)
    ensures var once := Stored(Update(p, patch)); Stored(Update(once, patch)) == once
  {
    StoredTwice(Update(p, patch).document);
  }

  /** A new record equals an update of nothing, except that its name is trimmed. */
  lemma CreateIsUpdateOfNothing(patch: ProfilePatch, name: string)
    requires Create(patch).Some?
    ensures var blank := Profile(name, None, None, None, None, None, None, NoAddress, None);
      Create(patch).value == Update(blank, patch).(name := Trim(patch.name.value))
  {
  }

  /** Applying the patch again to the record it created changes at most the name. */
  lemma UpdateAfterCreate(patch: ProfilePatch)
    requires Create(patch).Some?
    ensures var made := Stored(Create(patch).value);
      Stored(Update(made, patch)) == made.(name := patch.name.value)
  {
  }

  // ---------------------------------------------------------------- laws of patching

  const NoChange: ProfilePatch := ProfilePatch(None, Keep, Keep, Keep, Keep, Keep, Keep, KeepAddress, Keep)

  /** The patch that does one patch and then another. */
  function Then<T>(a: Patch<T>, b: Patch<T>): Patch<T> {
    if b.Keep? then a else b
  }

  /** Over an address that was cleared, what a field patch leaves. */
  function OverNothing<T>(b: Patch<T>): Patch<T> {
    if b.Keep? then Clear else b
  }

  function ThenAddress(a: AddressPatch, b: AddressPatch): AddressPatch {
    match (a, b)
    case (_, KeepAddress) => a
    case (_, ClearAddress) => ClearAddress
    case (KeepAddress, Each(_, _, _, _, _, _)) => b
    case (ClearAddress, Each(s, n, d, p, c, t)) =>
      Each(OverNothing(s), OverNothing(n), OverNothing(d), OverNothing(p), OverNothing(c), OverNothing(t))
    case (Each(s, n, d, p, c, t), Each(s2, n2, d2, p2, c2, t2)) =>
      Each(Then(s, s2), Then(n, n2), Then(d, d2), Then(p, p2), Then(c, c2), Then(t, t2))
  }

  function ThenPatch(a: ProfilePatch, b: ProfilePatch): ProfilePatch {
    ProfilePatch(if b.name.Some? then b.name else a.name, Then(a.tradeName, b.tradeName), Then(a.document, b.document),
                 Then(a.documentType, b.documentType), Then(a.phone, b.phone), Then(a.mobile, b.mobile),
                 Then(a.email, b.email), ThenAddress(a.address, b.address), Then(a.notes, b.notes))
  }

  /** Two patches one after the other are one patch. */
  lemma UpdateComposes(p: Profile, a: ProfilePatch, b: ProfilePatch)
    ensures Update(Update(p, a), b) == Update(p, ThenPatch(a, b))
  {
  }

  /** A field holds the patch's value, nothing, or what it held. */
  predicate Follows<T(==)>(was: Option<T>, patch: Patch<T>, now: Option<T>) {
    && (patch.Keep? ==> now == was) && (patch.Clear? ==> now.None?) && (patch.To? ==> now == Some(patch.value))
  }

  /** Each field of an updated profile follows its own field of the patch. */
  lemma UpdateFields(p: Profile, patch: ProfilePatch)
    ensures var q := Update(p, patch);
      && q.name == (if patch.name.Some? then patch.name.value else p.name)
      && Follows(p.tradeName, patch.tradeName, q.tradeName) && Follows(p.document, patch.document, q.document)
      && Follows(p.documentType, patch.documentType, q.documentType) && Follows(p.phone, patch.phone, q.phone)
      && Follows(p.mobile, patch.mobile, q.mobile) && Follows(p.email, patch.email, q.email)
      && Follows(p.notes, patch.notes, q.notes)
      && (patch.address.KeepAddress? ==> q.address == p.address)
      && (patch.address.ClearAddress? ==> q.address == Address(None, None, None, None, None, None))
      && (patch.address.Each? ==>
            && Follows(p.address.street, patch.address.street, q.address.street)
            && Follows(p.address.number, patch.address.number, q.address.number)
            && Follows(p.address.district, patch.address.district, q.address.district)
            && Follows(p.address.postalCode, patch.address.postalCode, q.address.postalCode)
            && Follows(p.address.city, patch.address.city, q.address.city)
            && Follows(p.address.state, patch.address.state, q.address.state))
  {
  }

  // ------------------------------------------------------------ what normal forms are

  predicate Spaces(s: string) {
    forall i :: 0 <= i < |s| ==> IsSpace(s[i])
  }

  /** Cutting `s` down to `s[i..j]` takes nothing but white space off. */
  predicate Outer(s: string, i: nat, j: nat)
    requires i <= j <= |s|
  {
    (forall k :: 0 <= k < i ==> IsSpace(s[k])) && (forall k :: j <= k < |s| ==> IsSpace(s[k]))
  }

  lemma OuterFront(s: string, i: nat, j: nat)
    requires s != "" && IsSpace(s[0]) && i <= j < |s| && Outer(s[1..], i, j)
    ensures Outer(s, i + 1, j + 1) && s[1..][i..j] == s[i + 1..j + 1]
  {
    assert forall k :: 0 < k < |s| ==> s[k] == s[1..][k - 1];
  }

  lemma OuterBack(s: string, i: nat, j: nat)
    requires s != "" && IsSpace(s[|s| - 1]) && i <= j < |s| && Outer(s[..|s| - 1], i, j)
    ensures Outer(s, i, j) && s[..|s| - 1][i..j] == s[i..j]
  {
    assert forall k :: 0 <= k < |s| - 1 ==> s[k] == s[..|s| - 1][k];
  }

  /** Trimming takes white space off both ends and nothing else. */
  lemma {:induction false} TrimIs(s: string) returns (i: nat, j: nat)
    ensures i <= j <= |s| && Trim(s) == s[i..j] && Outer(s, i, j)
    decreases |s|
  {
    if s != "" && IsSpace(s[0]) {
      i, j := TrimIs(s[1..]);
      OuterFront(s, i, j);
      i, j := i + 1, j + 1;
    } else if s != "" && IsSpace(s[|s| - 1]) {
      i, j := TrimIs(s[..|s| - 1]);
      OuterBack(s, i, j);
    } else {
      i, j := 0, |s|;
      assert s[i..j] == s;
    }
  }

  lemma {:induction false} DigitsConcat(a: string, b: string)
    ensures Digits(a + b) == Digits(a) + Digits(b)
    decreases |b|
  {
    if b == "" {
      assert a + b == a;
    } else {
      var n := |b| - 1;
      assert (a + b)[..|a| + n] == a + b[..n];
      DigitsConcat(a, b[..n]);
    }
  }

  /** A digit stays, any other character goes. */
  lemma DigitsOfOne(c: char)
    ensures Digits([c]) == if '0' <= c <= '9' then [c] else ""
  {
    assert [c][..0] == "";
  }

  /** The stored document is the first twenty digits, and nothing exactly if there are none. */
  lemma StoredIs(s: string)
    ensures var d := StoredDocument(Some(s)); var all := Digits(s);
      && (d.None? <==> all == "")
      && (d.Some? ==> d.value <= all && |d.value| == if |all| > 20 then 20 else |all|)
    ensures StoredDocument(None) == None
  {
  }

  function NonEmpty(t: Text): Text {
    if t.Some? && |t.value| > 0 then t else None
  }

  /** The profile with empty texts read as none. */
  function Blanked(p: Profile): Profile {
    p.(tradeName := NonEmpty(p.tradeName), document := NonEmpty(p.document), phone := NonEmpty(p.phone),
       mobile := NonEmpty(p.mobile), email := NonEmpty(p.email), notes := NonEmpty(p.notes),
       address := Address(NonEmpty(p.address.street), NonEmpty(p.address.number), NonEmpty(p.address.district),
                          NonEmpty(p.address.postalCode), NonEmpty(p.address.city), NonEmpty(p.address.state)))
  }

  /** The comparison sees exactly the profile with empty texts read as none. */
  lemma ContentEqualIff(a: Profile, b: Profile)
    ensures ContentEqual(a, b) <==> Blanked(a) == Blanked(b)
  {
  }

  /** A record is created exactly from a name that is not blank. */
  lemma CreateIff(patch: ProfilePatch)
    ensures Create(patch).Some? <==> patch.name.Some? && !Spaces(patch.name.value)
    ensures Create(patch).Some? ==> Create(patch).value.name == Trim(patch.name.value)
  {
    if patch.name.Some? {
      var s := patch.name.value;
      var i, j := TrimIs(s);
      if Trim(s) == "" {
        assert i == j;
      } else {
        assert !IsSpace(s[i]);
      }
    }
  }
}
