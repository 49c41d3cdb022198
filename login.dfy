/**
 * The login form of the front end (front-end/src/components/Login.js):
 * submitting sets the form to loading and clears the previous message; the
 * reply body then either carries an access token, which is stored under
 * `accessToken` before the `onLogin` callback fires, or a message to show;
 * a failed request or an unreadable body shows a generic error. Every
 * completion clears the loading flag.
 */
module Login {
  import opened Results

  const AccessTokenKey: string := "accessToken"
  const SuccessText: string := "Login successful!"
  const FailureText: string := "Login failed. Please try again."
  const ErrorText: string := "An error occurred. Please try again."

  /** A parsed JSON value; numbers are limited to integers. */
  datatype Json =
    | JNull
    | JBool(b: bool)
    | JNumber(n: int)
    | JString(s: string)
    | JArray(items: seq<Json>)
    | JObject(fields: map<string, Json>)

  /** Reading a property: JavaScript's `undefined`, or a value. */
  datatype Property = Undefined | Defined(value: Json)

  /** Reading a property of `null` throws a `TypeError`. */
  datatype TypeError = TypeError

  /** JavaScript truthiness of a property read. */
  predicate Truthy(p: Property)
  {
    match p
    case Undefined => false
    case Defined(v) =>
      match v
      case JNull => false
      case JBool(b) => b
      case JNumber(n) => n != 0
      case JString(s) => s != ""
      case JArray(_) => true
      case JObject(_) => true
  }

  /** `data[key]` for a parsed body; only an object has the fields the form reads. */
  function Get(data: Json, key: string): (r: Result<Property, TypeError>)
    ensures r.Failure? <==> data.JNull?
    ensures r.Success? && r.value.Defined? ==> data.JObject? && key in data.fields
    ensures data.JObject? ==>
              r == Success(if key in data.fields then Defined(data.fields[key]) else Undefined)
    ensures !data.JObject? && !data.JNull? ==> r == Success(Undefined)
  {
    match data
    case JNull => Failure(TypeError)
    case JObject(fields) => Success(if key in fields then Defined(fields[key]) else Undefined)
    case _ => Success(Undefined)
  }

  /** The decimal digits of a natural number. */
  function NatToDecimal(n: nat): (r: string)
    ensures |r| >= 1
    ensures forall i :: 0 <= i < |r| ==> '0' <= r[i] <= '9'
    decreases n
  {
    var digit := ['0' + (n % 10) as char];
    if n < 10 then digit else NatToDecimal(n / 10) + digit
  }

  /** The value of a decimal numeral. */
  function DecimalValue(s: string): (n: nat)
    requires forall i :: 0 <= i < |s| ==> '0' <= s[i] <= '9'
  {
    if s == [] then 0 else 10 * DecimalValue(s[..|s| - 1]) + (s[|s| - 1] - '0') as nat
  }

  /** Reading back the decimal numeral gives the number: the conversion loses nothing. */
  lemma {:induction false} DecimalRoundTrip(n: nat)
    ensures DecimalValue(NatToDecimal(n)) == n
  {
    var r := NatToDecimal(n);
    if n >= 10 {
      DecimalRoundTrip(n / 10);
      assert r[..|r| - 1] == NatToDecimal(n / 10);
    }
  }

  /** `String(value)`: the text `localStorage.setItem` stores for a JSON value. */
  function StorageString(v: Json): (r: string)
    ensures v.JString? ==> r == v.s
    decreases v, 1
  {
    match v
    case JNull => "null"
    case JBool(b) => if b then "true" else "false"
    case JNumber(n) => if n < 0 then "-" + NatToDecimal(-n) else NatToDecimal(n)
    case JString(s) => s
    case JArray(items) => JoinItems(items)
    case JObject(_) => "[object Object]"
  }

  /** `Array.prototype.join(",")`, where a `null` element becomes empty text. */
  function JoinItems(items: seq<Json>): (joined: string)
    decreases items, 0
  {
    if items == [] then ""
    else
      var head := if items[0].JNull? then "" else StorageString(items[0]);
      if |items| == 1 then head else head + "," + JoinItems(items[1..])
  }

  /** The reply body carries a truthy `access_token`. */
  predicate HasToken(data: Json)
  {
    data.JObject? && "access_token" in data.fields && Truthy(Defined(data.fields["access_token"]))
  }

  /** The reply body carries a truthy `message`. */
  predicate HasMessage(data: Json)
  {
    data.JObject? && "message" in data.fields && Truthy(Defined(data.fields["message"]))
  }

  /**
   * What one completion does: the token written under `accessToken` (if any,
   * which is also when `onLogin` fires) and the response shown.
   */
  datatype Settlement = Settlement(stored: Option<string>, response: Json)

  const FailedSettlement: Settlement := Settlement(None, JString(ErrorText))

  /**
   * The `.then((data) => ...)` callback. A `null` body makes the first
   * property read throw, which lands in `.catch`.
   */
  function SettleBody(data: Json): (r: Settlement)
    ensures r.stored.Some? <==> HasToken(data)
    ensures r.stored.Some? ==> r.stored.value == StorageString(data.fields["access_token"])
                               && r.response == JString(SuccessText)
    ensures data.JNull? ==> r == FailedSettlement
    ensures !HasToken(data) && !data.JNull? ==>
              r.response == if HasMessage(data) then data.fields["message"] else JString(FailureText)
    ensures Truthy(Defined(r.response))
  {
    match Get(data, "access_token")
    case Failure(_) => FailedSettlement
    case Success(token) =>
      if Truthy(token) then
        Settlement(Some(StorageString(token.value)), JString(SuccessText))
      else
        match Get(data, "message")
        case Failure(_) => FailedSettlement
        case Success(message) =>
          Settlement(None, if Truthy(message) then message.value else JString(FailureText))
  }

  /** How the `fetch` ends: the request fails, or a reply arrives whose body may not parse. */
  datatype FetchOutcome = NetworkFailure | Delivered(status: nat, body: Option<Json>)

  /** The whole promise chain after `fetch`, from its outcome. */
  function Settle(outcome: FetchOutcome): (r: Settlement)
    ensures outcome.Delivered? && outcome.body.Some? ==> r == SettleBody(outcome.body.value)
    ensures !(outcome.Delivered? && outcome.body.Some?) ==> r == FailedSettlement
  {
    match outcome
    case NetworkFailure => FailedSettlement
    case Delivered(_, None) => FailedSettlement
    case Delivered(_, Some(data)) => SettleBody(data)
  }

  /** The status code is never looked at: only the parsed body decides. */
  lemma StatusNeverInspected(status1: nat, status2: nat, body: Option<Json>)
    ensures Settle(Delivered(status1, body)) == Settle(Delivered(status2, body))
  {
  }

  /** A side effect on the world outside the component, in the order it happens. */
  datatype Effect = SetItem(key: string, value: string) | OnLoginCalled

  /** Only `accessToken` is written, and every `onLogin` call comes right after such a write. */
  ghost predicate WellOrdered(effects: seq<Effect>)
  {
    forall i :: 0 <= i < |effects| ==>
      && (effects[i].SetItem? ==> effects[i].key == AccessTokenKey)
      && (effects[i].OnLoginCalled? ==> 0 < i && effects[i - 1].SetItem?)
  }

  lemma WellOrderedLogin(effects: seq<Effect>, token: string)
    requires WellOrdered(effects)
    ensures WellOrdered(effects + [SetItem(AccessTokenKey, token), OnLoginCalled])
  {
  }

  /** The request body `{email, password}` posted to `/login`. */
  datatype LoginRequest = LoginRequest(email: string, password: string)

  /** The component's state, with the browser storage it writes and its record of side effects. */
  class LoginForm {
    var email: string
    var password: string
    /** The message shown under the form; `JNull` shows nothing. */
    var response: Json
    var isLoading: bool
    /** `localStorage`. */
    var storage: map<string, string>
    /** Writes to storage and `onLogin` calls, oldest first. */
    var effects: seq<Effect>

    ghost predicate Valid()
      reads this
    {
      WellOrdered(effects)
    }

    /** The number of times `onLogin` has fired. */
    function LoginCount(): (count: nat)
      reads this
    {
      CountLogins(effects)
    }

    constructor (storage: map<string, string>)
      ensures Valid()
      ensures email == "" && password == "" && response == JNull && !isLoading
      ensures this.storage == storage && effects == []
    {
      email, password := "", "";
      response := JNull;
      isLoading := false;
      this.storage := storage;
      effects := [];
    }

    /** The `onChange` handler of the email field. */
    method SetEmail(value: string)
      requires Valid()
      modifies this`email
      ensures Valid() && email == value
    {
      email := value;
    }

    /** The `onChange` handler of the password field. */
    method SetPassword(value: string)
      requires Valid()
      modifies this`password
      ensures Valid() && password == value
    {
      password := value;
    }

    /** `handleSubmit` up to the request: loading on, message cleared, body built. */
    method Submit() returns (request: LoginRequest)
      requires Valid()
      modifies this`isLoading, this`response
      ensures Valid() && isLoading && response == JNull
      ensures request == LoginRequest(email, password)
    {
      isLoading := true;
      request := LoginRequest(email, password);
      response := JNull;
    }

    /** The `.catch` callback: the request or the body parse failed. */
    method RequestFailed()
      requires Valid()
      modifies this`response, this`isLoading
      ensures Valid()
      ensures response == JString(ErrorText) && !isLoading
      ensures response == FailedSettlement.response
    {
      response := JString(ErrorText);
      isLoading := false;
    }

    /** The `.then((data) => ...)` callback on a parsed body. */
    method ReceiveBody(data: Json)
      requires Valid()
      modifies this`response, this`isLoading, this`storage, this`effects
      ensures Valid() && !isLoading
      ensures response == SettleBody(data).response
      ensures SettleBody(data).stored.Some? ==>
        var token := SettleBody(data).stored.value;
        && storage == old(storage)[AccessTokenKey := token]
        && effects == old(effects) + [SetItem(AccessTokenKey, token), OnLoginCalled]
        && LoginCount() == old(LoginCount()) + 1
      ensures SettleBody(data).stored.None? ==>
        storage == old(storage) && effects == old(effects)
    {
      var accessToken := Get(data, "access_token");
      if accessToken.Failure? {
        RequestFailed();
        return;
      }
      if Truthy(accessToken.value) {
        var token := StorageString(accessToken.value.value);
        storage := storage[AccessTokenKey := token];
        effects := effects + [SetItem(AccessTokenKey, token), OnLoginCalled];
        assert effects == old(effects) + [SetItem(AccessTokenKey, token), OnLoginCalled];
        WellOrderedLogin(old(effects), token);
        ghost var added := [SetItem(AccessTokenKey, token), OnLoginCalled];
        assert added[..1] == [SetItem(AccessTokenKey, token)] && CountLogins(added[..1]) == 0;
        CountLoginsAppend(old(effects), added);
        response := JString(SuccessText);
      } else {
        var message := Get(data, "message");
        response := if Truthy(message.value) then message.value.value else JString(FailureText);
      }
      isLoading := false;
    }

    /** Whatever the outcome of the request, the matching callback. */
    method Complete(outcome: FetchOutcome)
      requires Valid()
      modifies this`response, this`isLoading, this`storage, this`effects
      ensures Valid() && !isLoading
      ensures response == Settle(outcome).response && Truthy(Defined(response))
      ensures Settle(outcome).stored.Some? ==>
        var token := Settle(outcome).stored.value;
        && storage == old(storage)[AccessTokenKey := token]
        && effects == old(effects) + [SetItem(AccessTokenKey, token), OnLoginCalled]
      ensures Settle(outcome).stored.None? ==>
        storage == old(storage) && effects == old(effects)
    {
      if outcome.Delivered? && outcome.body.Some? {
        ReceiveBody(outcome.body.value);
      } else {
        RequestFailed();
      }
    }
  }

  /** The number of `onLogin` calls in a record of effects. */
  function CountLogins(effects: seq<Effect>): (count: nat)
  {
    if effects == [] then 0
    else CountLogins(effects[..|effects| - 1]) + (if effects[|effects| - 1].OnLoginCalled? then 1 else 0)
  }

  lemma {:induction false} CountLoginsAppend(a: seq<Effect>, b: seq<Effect>)
    ensures CountLogins(a + b) == CountLogins(a) + CountLogins(b)
    decreases |b|
  {
    if b != [] {
      CountLoginsAppend(a, b[..|b| - 1]);
      assert (a + b)[..|a + b| - 1] == a + b[..|b| - 1];
    } else {
      assert a + b == a;
    }
  }

  /** A full successful login: the token is stored, `onLogin` fires once, the success text is shown. */
  method LoginScenario()
  {
    var form := new LoginForm(map[]);
    form.SetEmail("user@example.com");
    form.SetPassword("pw");
    var request := form.Submit();
    assert request == LoginRequest("user@example.com", "pw");
    var body := JObject(map["access_token" := JString("abc")]);
    form.Complete(Delivered(200, Some(body)));
    assert form.storage[AccessTokenKey] == "abc";
    assert form.response == JString(SuccessText) && !form.isLoading;
  }
}
