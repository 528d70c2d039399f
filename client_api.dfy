/**
 * POST /api/clients: validates a JSON body, then inserts a client row.
 * The name is required; then an email or a phone is required; the client
 * type defaults to 'BTC'. Any failure past validation (a body that is
 * not JSON, a type the enum column refuses, a refused insert) is answered
 * 500.
 */
module ClientApi {
  import opened Wrappers
  import opened Schema

  /** The fields the handler destructures from the body; an absent or null field is None. */
  datatype Payload = Payload(
    name: Option<string>, email: Option<string>, phone: Option<string>, address: Option<string>,
    clientType: Option<string>, registrationNumber: Option<string>, vatNumber: Option<string>,
    bankName: Option<string>, bankCode: Option<string>, bankAccount: Option<string>,
    description: Option<string>, sportType: Option<string>)

  /** The JSON response: the inserted row (status 200), or an error message with its status. */
  datatype Response = Created(client: ClientRow) | Failure(status: int, error: string)

  /** JavaScript truthiness of an optional string: present and non-empty. */
  predicate Truthy(s: Option<string>) {
    s.Some? && s.value != ""
  }

  /** The client_type enum column's reading of a string. */
  function ParseClientType(s: string): (r: Option<ClientType>)
    ensures r == Some(BTC) <==> s == "BTC"
    ensures r == Some(BTB) <==> s == "BTB"
  {
    if s == "BTC" then Some(BTC) else if s == "BTB" then Some(BTB) else None
  }

  /** `type || 'BTC'`. */
  function TypeText(d: Payload): string
  {
    if Truthy(d.clientType) then d.clientType.value else "BTC"
  }

  /** The values inserted for a validated body: each field as given, the type through its enum reading. */
  function Values(d: Payload, ct: ClientType): ClientValues
    requires d.name.Some?
  {
    ClientValues(d.name.value, d.email, d.phone, d.description, d.address, d.vatNumber,
                 d.registrationNumber, d.bankName, d.bankCode, d.bankAccount, d.sportType,
                 Some(ct), None, None)
  }

  /**
   * The handler. `body` is None when the request body is not JSON; a JSON
   * value that is not an object (a number, a string, an array) is a payload
   * with every field absent, so it gets the name error. `newId` is the id
   * the database assigns.
   */
  function Post(body: Option<Payload>, newId: int): (r: Response)
    ensures body.None? ==> r == Failure(500, "Internal Server Error")
    ensures body.Some? && !Truthy(body.value.name) ==> r == Failure(400, "Name is required")
    ensures body.Some? && Truthy(body.value.name) && !Truthy(body.value.email) && !Truthy(body.value.phone)
            ==> r == Failure(400, "Email or Phone is required")
    ensures r.Created? <==>
            body.Some? && Truthy(body.value.name) && (Truthy(body.value.email) || Truthy(body.value.phone))
            && ParseClientType(TypeText(body.value)).Some?
    ensures r.Created? ==> ClientRowOk(r.client)
    ensures r.Created? ==> (r.client.email.Some? && r.client.email.value != "") || (r.client.phone.Some? && r.client.phone.value != "")
    ensures r.Created? ==> r.client.id == newId && Some(r.client.name) == body.value.name
    ensures r.Created? ==> r.client.clientType == (if Truthy(body.value.clientType) then ParseClientType(body.value.clientType.value).value else BTC)
    ensures r.Created? ==> r.client.vatRate == 21.0 && r.client.totalOrdered.None?
    ensures r.Failure? ==> r.status == 400 || r == Failure(500, "Internal Server Error")
  {
    if body.None? then Failure(500, "Internal Server Error")
    else
      var d := body.value;
      if !Truthy(d.name) then Failure(400, "Name is required")
      else if !Truthy(d.email) && !Truthy(d.phone) then Failure(400, "Email or Phone is required")
      else
        var ct := ParseClientType(TypeText(d));
        if ct.None? then Failure(500, "Internal Server Error")
        else
          var inserted := InsertClient(newId, Values(d, ct.value));
          if inserted.Some? then Created(inserted.value) else Failure(500, "Internal Server Error")
  }

  /** Every field other than the type passes through to the inserted row unchanged. */
  lemma FieldsPassThrough(body: Option<Payload>, newId: int)
    requires Post(body, newId).Created?
    ensures var c, d := Post(body, newId).client, body.value;
            c.email == d.email && c.phone == d.phone && c.address == d.address
            && c.registrationNumber == d.registrationNumber && c.vatNumber == d.vatNumber
            && c.bankName == d.bankName && c.bankCode == d.bankCode && c.bankAccount == d.bankAccount
            && c.description == d.description && c.sportType == d.sportType
  {
    var d := body.value;
    var ct := ParseClientType(TypeText(d));
    assert InsertClient(newId, Values(d, ct.value)).Some?;
  }

  /** The name is checked before the contact fields: a body with neither gets the name error. */
  lemma NameCheckedFirst(body: Payload, newId: int)
    requires !Truthy(body.name) && !Truthy(body.email) && !Truthy(body.phone)
    ensures Post(Some(body), newId) == Failure(400, "Name is required")
  {
  }

  /** An absent or empty type is stored as BTC. */
  lemma TypeDefaultsToBTC(body: Payload, newId: int)
    requires Truthy(body.name) && (Truthy(body.email) || Truthy(body.phone)) && !Truthy(body.clientType)
    ensures Post(Some(body), newId).Created? && Post(Some(body), newId).client.clientType == BTC
  {
  }
}
