/** The part of the Salt API client (`pepper.Pepper`) the plugins use: a login
    and `low` calls that each send one low-state request, together with the way
    every script reads one minion's reply out of the response. The server is
    not modelled: what it answers is a parameter of the client. */
module SaltApi {
  import opened Results
  import opened PyValue
  import opened Common

  /** One positional or keyword argument of a request: a plain JSON value, or
      the base64 text of some bytes. */
  datatype Arg = Plain(v: Value) | Encoded(bytes: seq<byte>)

  /** A low-state request: the `client`, `tgt`, `fun`, `arg`, optional
      `kwarg` and `full_return` entries of the dictionary sent to `low`. */
  datatype LowState = LowState(
    client: string,
    tgt: Value,
    fun: string,
    arg: seq<Arg>,
    kwarg: Option<map<string, Value>>,
    fullReturn: bool)

  /** What the API answers to a call: a `PepperException` with its message,
      or the decoded JSON response. */
  datatype Response = Raised(message: string) | Answered(body: Value)

  /** The JSON value a setting is sent as. */
  function SettingValue(v: Setting): (r: Value)
    ensures Common.Truthy(v) <==> PyValue.Truthy(r)
  {
    match v
    case Unset => Null
    case Text(s) => Str(s)
    case Flag(b) => Bool(b)
    case Number(i) => Int(i)
    case Words(items) => List(seq(|items|, i requires 0 <= i < |items| => Str(items[i])))
  }

  /** `response.get('return', [{}])[0]`: the minions' replies of a response,
      or `None` where the script raises. It raises here when the response is
      not a dictionary or its `return` entry is an empty list. A `return` that
      is not a list either raises here, or, as a non-empty string does, is
      indexed to a value on which every caller's next `.get` or `.items()`
      raises; `None` stands for both. */
  function MinionsOf(body: Value): (r: Option<Value>)
    ensures !body.Dict? ==> r.None?
    ensures body.Dict? && "return" !in body.entries ==> r == Some(Dict(map[]))
    ensures body.Dict? && "return" in body.entries && body.entries["return"].List? && body.entries["return"].items != [] ==>
      r == Some(body.entries["return"].items[0])
    ensures body.Dict? && "return" in body.entries && (!body.entries["return"].List? || body.entries["return"].items == []) ==>
      r.None?
  {
    match body
    case Dict(entries) =>
      if "return" !in entries then Some(Dict(map[]))
      else
        (match entries["return"]
         case List(items) => if items == [] then None else Some(items[0])
         case _ => None)
    case _ => None
  }

  /** `d.get(key, default)` on a value that must be a dictionary. */
  function Get(d: Value, key: string, default: Value): (r: Option<Value>)
    ensures r.Some? <==> d.Dict?
    ensures d.Dict? && key in d.entries ==> r == Some(d.entries[key])
    ensures d.Dict? && key !in d.entries ==> r == Some(default)
  {
    match d
    case Dict(entries) => Some(if key in entries then entries[key] else default)
    case _ => None
  }

  /** `response.get('return', [{}])[0].get(host, {}).get(field, default)`:
      one field of one minion's reply; a host missing from the reply gives
      `default`, and `None` stands for the exception Python raises on a
      malformed response. */
  function MinionField(body: Value, host: string, field: string, default: Value): (r: Option<Value>)
    ensures MinionsOf(body) == Some(Dict(map[])) ==> r == Some(default)
  {
    match MinionsOf(body)
    case None => None
    case Some(minions) =>
      (match Get(minions, host, Dict(map[]))
       case None => None
       case Some(reply) => Get(reply, field, default))
  }

  /** A response that names no minion leaves every field at its default. */
  lemma MissingHostDefaults(body: Value, host: string, field: string, default: Value)
    requires MinionsOf(body).Some? && MinionsOf(body).value.Dict?
    requires host !in MinionsOf(body).value.entries
    ensures MinionField(body, host, field, default) == Some(default)
  {
  }

  /** A minion's reply that holds the field gives its value. */
  lemma PresentField(body: Value, host: string, field: string, default: Value, reply: map<string, Value>)
    requires MinionsOf(body).Some? && MinionsOf(body).value.Dict?
    requires host in MinionsOf(body).value.entries && MinionsOf(body).value.entries[host] == Dict(reply)
    requires field in reply
    ensures MinionField(body, host, field, default) == Some(reply[field])
  {
  }

  /** The user, password and authentication backend of a login. */
  datatype Credentials = Credentials(user: Value, password: Value, eauth: Value)

  /** A `Pepper` client. `loginError` is what the API answers to the login
      (the message of the `PepperException` it raises, if any) and `answer`
      gives the response to a `low` call from all the requests sent so far. */
  class Client {
    const url: Value
    const ignoreSslErrors: bool
    const loginError: Option<string>
    const answer: seq<LowState> -> Response
    var login: Option<Credentials>
    var sent: seq<LowState>

    constructor (url: Value, ignoreSslErrors: bool, loginError: Option<string>, answer: seq<LowState> -> Response)
      ensures this.url == url && this.ignoreSslErrors == ignoreSslErrors
      ensures this.loginError == loginError && this.answer == answer
      ensures login.None? && sent == []
    {
      this.url := url;
      this.ignoreSslErrors := ignoreSslErrors;
      this.loginError := loginError;
      this.answer := answer;
      login := None;
      sent := [];
    }

    /** `client.login(...)`: the exception's message when the API refuses. */
    method Login(credentials: Credentials) returns (error: Option<string>)
      modifies this
      ensures error == loginError
      ensures login == Some(credentials) && sent == old(sent)
    {
      login := Some(credentials);
      error := loginError;
    }

    /** `client.low(lowstate=[request])`. */
    method Low(request: LowState) returns (response: Response)
      modifies this
      ensures sent == old(sent) + [request] && login == old(login)
      ensures response == answer(sent)
    {
      sent := sent + [request];
      response := answer(sent);
    }
  }
}
