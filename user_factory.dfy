/** `UserFactory.createPayload`: the normalisation applied to a registration
    body before the password is hashed and the user stored. */
module UserFactory {
  import opened Wrappers
  import opened Text

  datatype Role = Admin | Customer

  function RoleName(r: Role): string {
    match r
    case Admin => "admin"
    case Customer => "customer"
  }

  /** The request body; a field that is `null` or `undefined` is `None`. */
  datatype UserInput = UserInput(name: Option<string>, email: Option<string>, password: Option<string>,
                                 role: Option<string>)

  datatype UserPayload = UserPayload(name: string, email: string, password: string, role: Role)

  datatype UserError = NoInput | Required

  /** JavaScript truthiness of an optional string: absent or empty is falsy. */
  predicate Truthy(s: Option<string>) {
    s.Some? && s.value != ""
  }

  /** `createPayload(input)`. */
  function CreatePayload(input: Option<UserInput>): (r: Result<UserPayload, UserError>)
    ensures input.None? ==> r == Err(NoInput)
    ensures input.Some? ==>
      var x := input.value;
      && (r == Err(Required) <==> !Truthy(x.name) || !Truthy(x.email) || !Truthy(x.password))
      && (r.Ok? <==> Truthy(x.name) && Truthy(x.email) && Truthy(x.password))
      && (r.Ok? ==>
            && r.value.name == Trim(x.name.value)
            && r.value.email == Trim(ToLower(x.email.value))
            && r.value.password == x.password.value
            && (r.value.role == Admin <==> x.role == Some("admin")))
  {
    if input.None? then Err(NoInput)
    else
      var x := input.value;
      if !Truthy(x.name) || !Truthy(x.email) || !Truthy(x.password) then Err(Required)
      else
        var role := if x.role == Some("admin") then Admin else Customer;
        Ok(UserPayload(Trim(x.name.value), Trim(ToLower(x.email.value)), x.password.value, role))
  }

  /** A payload as `createPayload` leaves it: trimmed name, trimmed lower-case email. */
  predicate Normalised(p: UserPayload) {
    Trim(p.name) == p.name && Trim(p.email) == p.email && IsLower(p.email)
  }

  /** The body that would send a payload back through the factory. */
  function InputOf(p: UserPayload): UserInput {
    UserInput(Some(p.name), Some(p.email), Some(p.password), Some(RoleName(p.role)))
  }

  /** Trimming keeps a lower-case string lower-case. */
  lemma TrimKeepsLower(s: string)
    requires IsLower(s)
    ensures IsLower(Trim(s))
  {
    var i, j := TrimIsTrimmedInfix(s);
    var t := Trim(s);
    forall k | 0 <= k < |t|
      ensures !('A' <= t[k] <= 'Z')
    {
      assert t[k] == s[i + k];
    }
  }

  /** Every payload the factory produces is normalised. */
  lemma PayloadNormalised(input: Option<UserInput>)
    requires CreatePayload(input).Ok?
    ensures Normalised(CreatePayload(input).value)
  {
    var x := input.value;
    TrimIdempotent(x.name.value);
    TrimIdempotent(ToLower(x.email.value));
    LowerIsLower(x.email.value);
    TrimKeepsLower(ToLower(x.email.value));
  }

  /** Normalising a normalised payload with non-empty fields gives it back. */
  lemma Idempotent(p: UserPayload)
    requires Normalised(p) && p.name != "" && p.email != "" && p.password != ""
    ensures CreatePayload(Some(InputOf(p))) == Ok(p)
  {
    LowerOfLower(p.email);
  }

  /** A name of spaces is truthy, so the factory accepts it, but the payload's
      name is then empty and the same payload sent back is refused. */
  lemma BlankNameNotIdempotent()
    ensures var input := UserInput(Some(" "), Some("a"), Some("p"), None);
            && CreatePayload(Some(input)).Ok?
            && CreatePayload(Some(input)).value.name == ""
            && CreatePayload(Some(InputOf(CreatePayload(Some(input)).value))) == Err(Required)
  {
    var input := UserInput(Some(" "), Some("a"), Some("p"), None);
    assert TrimStart(" ") == "" by {
      assert IsSpace(" "[0]) && " "[1..] == "";
    }
    assert Trim(" ") == "";
    var r := CreatePayload(Some(input));
    assert Truthy(input.name) && Truthy(input.email) && Truthy(input.password);
    assert r.Ok? && r.value.name == "";
    var back := InputOf(r.value);
    assert !Truthy(back.name);
  }
}
