/** The configuration helpers every plugin script shares (contents/common.py):
    the boolean token table, `parse_data` over the environment Rundeck provides,
    `shstr`, `sanitize_dict`, and the required-setting check each script's
    `main` runs before contacting the Salt API. */
module Common {
  import opened Results
  import opened PyStr

  /** What `parse_data` stores under a key: `None` (an unset variable, or a
      boolean that is not a known token), a string, a boolean, an integer, or
      the argument list `shstr` made of a command string. */
  datatype Setting =
    | Unset
    | Text(s: string)
    | Flag(b: bool)
    | Number(i: int)
    | Words(items: seq<string>)

  /** Python's `bool(v)` for a setting, as in `if not data[key]`. */
  predicate Truthy(v: Setting) {
    match v
    case Unset => false
    case Text(s) => s != []
    case Flag(b) => b
    case Number(i) => i != 0
    case Words(items) => items != []
  }

  /** A variable Rundeck may provide: the key it is stored under, the name of
      the environment variable, and its type (`"str"`, `"bool"`, `"int"` or
      `"shstr"`; any other type is kept as a string). */
  datatype DataItem = DataItem(key: string, envVar: string, dataType: string)

  /** `int(value)` raised `ValueError` while parsing the variable of `key`. */
  datatype ParseError = NotAnInteger(key: string, text: string)

  /** The shell-style tokenizer (`shlex.split`): `None` where it raises
      `ValueError` or `SyntaxError`. */
  type Lexer = string -> Option<seq<string>>

  const TrueTokens: set<string> := {"true", "1", "yes", "on"}
  const FalseTokens: set<string> := {"false", "0", "no", "off"}

  /** No token is both true and false. */
  lemma TokenTablesDisjoint()
    ensures TrueTokens !! FalseTokens
  {
  }

  /** The token table of `str_to_bool`. */
  function BoolToken(token: string): (r: Option<bool>)
    ensures r == Some(true) <==> token in TrueTokens
    ensures r == Some(false) <==> token in FalseTokens
  {
    TokenTablesDisjoint();
    if token in TrueTokens then Some(true)
    else if token in FalseTokens then Some(false)
    else None
  }

  /** `str_to_bool`: the stripped, lower-cased string looked up in the token table. */
  function StrToBool(s: Option<string>): (r: Option<bool>)
    ensures s.None? ==> r.None?
    ensures s.Some? ==> (r == Some(true) <==> Lower(Strip(s.value)) in TrueTokens)
    ensures s.Some? ==> (r == Some(false) <==> Lower(Strip(s.value)) in FalseTokens)
  {
    match s
    case None => None
    case Some(text) => BoolToken(Lower(Strip(text)))
  }

  lemma TokensTrimmed(t: string)
    requires t in TrueTokens + FalseTokens
    ensures |t| > 0 && !IsSpace(t[0]) && !IsSpace(t[|t| - 1])
  {
  }

  /** Lower-casing leaves white space alone, so a character that lower-cases
      to a non-space was not a space. */
  lemma LowerNonSpace(c: char)
    requires !IsSpace(LowerChar(c))
    ensures !IsSpace(c)
  {
  }

  /** Any white-space padding and any capitalisation of a token parse as that
      token: `'True'`, `' yes\n'` and `'OFF'` all give their boolean. */
  lemma StrToBoolAccepts(p: string, u: string, q: string)
    requires AllSpace(p) && AllSpace(q)
    requires Lower(u) in TrueTokens + FalseTokens
    ensures StrToBool(Some(p + u + q)) == Some(Lower(u) in TrueTokens)
  {
    var t := Lower(u);
    TokensTrimmed(t);
    LowerNonSpace(u[0]);
    LowerNonSpace(u[|u| - 1]);
    StripPadded(p, u, q);
  }

  /** `shstr`: the tokens of `command`, or no arguments when the tokenizer fails. */
  function ShStr(command: string, lexer: Lexer): (args: seq<string>)
    ensures lexer(command).None? ==> args == []
    ensures lexer(command).Some? ==> args == lexer(command).value
  {
    match lexer(command)
    case None => []
    case Some(tokens) => tokens
  }

  /** The settings an item of type `t` can produce. */
  predicate Shaped(t: string, v: Setting) {
    (t == "str" ==> v.Unset? || v.Text?) &&
    (t == "int" ==> v.Unset? || v.Number?) &&
    (t == "bool" ==> v.Unset? || v.Flag?) &&
    (t == "shstr" ==> v.Unset? || v.Words?)
  }

  /** The value `parse_data` stores for one item. */
  function Convert(item: DataItem, env: map<string, string>, lexer: Lexer): (r: Result<Setting, ParseError>)
    ensures item.envVar !in env ==> r == Ok(Unset)
    ensures r.Ok? ==> Shaped(item.dataType, r.value)
    ensures item.envVar in env && item.dataType == "str" ==> r == Ok(Text(env[item.envVar]))
    ensures item.envVar in env && item.dataType == "bool" ==>
      r == Ok(if StrToBool(Some(env[item.envVar])).Some? then Flag(StrToBool(Some(env[item.envVar])).value) else Unset)
    ensures item.envVar in env && item.dataType == "int" && ParseInt(env[item.envVar]).Some? ==>
      r == Ok(Number(ParseInt(env[item.envVar]).value))
    ensures item.envVar in env && item.dataType == "shstr" ==> r == Ok(Words(ShStr(env[item.envVar], lexer)))
    ensures r.Err? <==> item.envVar in env && item.dataType == "int" && ParseInt(env[item.envVar]).None?
  {
    if item.envVar !in env then Ok(Unset)
    else
      var text := env[item.envVar];
      if item.dataType == "bool" then
        Ok(match StrToBool(Some(text)) case None => Unset case Some(b) => Flag(b))
      else if item.dataType == "shstr" then Ok(Words(ShStr(text, lexer)))
      else if item.dataType == "int" then
        match ParseInt(text)
        case None => Err(NotAnInteger(item.key, text))
        case Some(n) => Ok(Number(n))
      else Ok(Text(text))
  }

  /** The items stored in order on top of `acc`; the first failure stops the parse. */
  function ParseInto(acc: map<string, Setting>, items: seq<DataItem>, env: map<string, string>, lexer: Lexer): Result<map<string, Setting>, ParseError>
    decreases |items|
  {
    if items == [] then Ok(acc)
    else
      match Convert(items[0], env, lexer)
      case Err(e) => Err(e)
      case Ok(v) => ParseInto(acc[items[0].key := v], items[1..], env, lexer)
  }

  /** What `parse_data(items)` returns for the environment `env`. */
  function Parsed(items: seq<DataItem>, env: map<string, string>, lexer: Lexer): Result<map<string, Setting>, ParseError> {
    ParseInto(map[], items, env, lexer)
  }

  /** `parse_data`: one key per item, converted by the item's type. */
  method ParseData(items: seq<DataItem>, env: map<string, string>, lexer: Lexer) returns (r: Result<map<string, Setting>, ParseError>)
    ensures r == Parsed(items, env, lexer)
  {
    var data: map<string, Setting> := map[];
    var i := 0;
    while i < |items|
      invariant 0 <= i <= |items|
      invariant ParseInto(data, items[i..], env, lexer) == Parsed(items, env, lexer)
    {
      var item := items[i];
      assert items[i..][0] == item && items[i..][1..] == items[i + 1..];
      var value: Setting;
      if item.envVar in env {
        var text := env[item.envVar];
        if item.dataType == "bool" {
          var b := StrToBool(Some(text));
          value := if b.Some? then Flag(b.value) else Unset;
        } else if item.dataType == "shstr" {
          value := Words(ShStr(text, lexer));
        } else if item.dataType == "int" {
          var n := ParseInt(text);
          if n.None? {
            return Err(NotAnInteger(item.key, text));
          }
          value := Number(n.value);
        } else {
          value := Text(text);
        }
      } else {
        value := Unset;
      }
      data := data[item.key := value];
      i := i + 1;
    }
    assert items[i..] == [];
    r := Ok(data);
  }

  function KeysOf(items: seq<DataItem>): set<string> {
    set i | 0 <= i < |items| :: items[i].key
  }

  lemma {:induction false} ParseIntoKeys(acc: map<string, Setting>, items: seq<DataItem>, env: map<string, string>, lexer: Lexer)
    requires ParseInto(acc, items, env, lexer).Ok?
    ensures ParseInto(acc, items, env, lexer).value.Keys == acc.Keys + KeysOf(items)
    decreases |items|
  {
    if items != [] {
      var v := Convert(items[0], env, lexer).value;
      ParseIntoKeys(acc[items[0].key := v], items[1..], env, lexer);
      assert KeysOf(items) == {items[0].key} + KeysOf(items[1..]) by {
        forall k | k in KeysOf(items) ensures k in {items[0].key} + KeysOf(items[1..]) {
          var i :| 0 <= i < |items| && items[i].key == k;
          if i > 0 {
            assert items[1..][i - 1] == items[i];
          }
        }
      }
    }
  }

  /** `parse_data` returns exactly one key per item. */
  lemma ParsedKeys(items: seq<DataItem>, env: map<string, string>, lexer: Lexer)
    requires Parsed(items, env, lexer).Ok?
    ensures Parsed(items, env, lexer).value.Keys == KeysOf(items)
  {
    ParseIntoKeys(map[], items, env, lexer);
  }

  lemma {:induction false} ParseIntoOk(acc: map<string, Setting>, items: seq<DataItem>, env: map<string, string>, lexer: Lexer)
    ensures ParseInto(acc, items, env, lexer).Ok? <==> forall i :: 0 <= i < |items| ==> Convert(items[i], env, lexer).Ok?
    decreases |items|
  {
    if items != [] {
      var c := Convert(items[0], env, lexer);
      if c.Ok? {
        ParseIntoOk(acc[items[0].key := c.value], items[1..], env, lexer);
        assert forall i :: 1 <= i < |items| ==> items[1..][i - 1] == items[i];
      }
    }
  }

  /** `parse_data` fails exactly when some integer variable is set to text
      that `int()` rejects. */
  lemma ParsedOk(items: seq<DataItem>, env: map<string, string>, lexer: Lexer)
    ensures Parsed(items, env, lexer).Ok? <==>
      forall i :: 0 <= i < |items| && items[i].envVar in env && items[i].dataType == "int" ==> ParseInt(env[items[i].envVar]).Some?
  {
    ParseIntoOk(map[], items, env, lexer);
  }

  /** The last item written under a key. */
  predicate LastWith(items: seq<DataItem>, i: int) {
    0 <= i < |items| && forall j :: i < j < |items| ==> items[j].key != items[i].key
  }

  /** Every key's value is the converted value of the last item with that key. */
  predicate StoresLast(d: map<string, Setting>, items: seq<DataItem>, env: map<string, string>, lexer: Lexer) {
    forall i :: 0 <= i < |items| && LastWith(items, i) ==>
      items[i].key in d && Convert(items[i], env, lexer).Ok? && d[items[i].key] == Convert(items[i], env, lexer).value
  }

  lemma {:induction false} ParseIntoKeep(acc: map<string, Setting>, items: seq<DataItem>, env: map<string, string>, lexer: Lexer, k: string)
    requires ParseInto(acc, items, env, lexer).Ok?
    requires k in acc && k !in KeysOf(items)
    ensures k in ParseInto(acc, items, env, lexer).value && ParseInto(acc, items, env, lexer).value[k] == acc[k]
    decreases |items|
  {
    if items != [] {
      var v := Convert(items[0], env, lexer).value;
      assert items[0].key in KeysOf(items);
      assert KeysOf(items[1..]) <= KeysOf(items) by {
        forall x | x in KeysOf(items[1..]) ensures x in KeysOf(items) {
          var j :| 0 <= j < |items[1..]| && items[1..][j].key == x;
          assert items[j + 1].key == x;
        }
      }
      ParseIntoKeep(acc[items[0].key := v], items[1..], env, lexer, k);
    }
  }

  lemma {:induction false} ParseIntoValues(acc: map<string, Setting>, items: seq<DataItem>, env: map<string, string>, lexer: Lexer)
    requires ParseInto(acc, items, env, lexer).Ok?
    ensures StoresLast(ParseInto(acc, items, env, lexer).value, items, env, lexer)
    decreases |items|
  {
    if items != [] {
      var v := Convert(items[0], env, lexer).value;
      var acc' := acc[items[0].key := v];
      var rest := items[1..];
      var d := ParseInto(acc', rest, env, lexer).value;
      assert ParseInto(acc, items, env, lexer).value == d;
      ParseIntoValues(acc', rest, env, lexer);
      forall i | LastWith(items, i)
        ensures items[i].key in d && Convert(items[i], env, lexer).Ok? && d[items[i].key] == Convert(items[i], env, lexer).value
      {
        if i > 0 {
          assert rest[i - 1] == items[i];
          forall j | i - 1 < j < |rest| ensures rest[j].key != rest[i - 1].key {
            assert rest[j] == items[j + 1];
          }
          assert LastWith(rest, i - 1);
        } else {
          assert items[0].key !in KeysOf(rest) by {
            forall j | 0 <= j < |rest| ensures rest[j].key != items[0].key {
              assert rest[j] == items[j + 1];
            }
          }
          ParseIntoKeep(acc', rest, env, lexer, items[0].key);
        }
      }
    }
  }

  /** `parse_data` stores under each key the converted value of the last item
      with that key: `None` when its variable is unset. */
  lemma ParsedValues(items: seq<DataItem>, env: map<string, string>, lexer: Lexer)
    requires Parsed(items, env, lexer).Ok?
    ensures StoresLast(Parsed(items, env, lexer).value, items, env, lexer)
    ensures forall i :: LastWith(items, i) && items[i].envVar !in env ==>
      items[i].key in Parsed(items, env, lexer).value && Parsed(items, env, lexer).value[items[i].key] == Unset
  {
    ParseIntoValues(map[], items, env, lexer);
  }

  /** Each item's key is among the parsed keys. */
  lemma ParsedHasKeys(items: seq<DataItem>, env: map<string, string>, lexer: Lexer)
    requires Parsed(items, env, lexer).Ok?
    ensures forall i :: 0 <= i < |items| ==> items[i].key in Parsed(items, env, lexer).value
  {
    ParsedKeys(items, env, lexer);
    assert forall i :: 0 <= i < |items| ==> items[i].key in KeysOf(items);
  }

  /** The value stored by the last item with a key is that item's converted
      value, of the shape of its type. */
  lemma ParsedShapedAt(items: seq<DataItem>, env: map<string, string>, lexer: Lexer, i: int)
    requires Parsed(items, env, lexer).Ok? && LastWith(items, i)
    ensures items[i].key in Parsed(items, env, lexer).value
    ensures Convert(items[i], env, lexer).Ok?
    ensures Parsed(items, env, lexer).value[items[i].key] == Convert(items[i], env, lexer).value
    ensures Shaped(items[i].dataType, Parsed(items, env, lexer).value[items[i].key])
  {
    ParsedValues(items, env, lexer);
  }

  const Mask := "********"

  /** The error the node executor and the resource model source log when a
      required setting is falsy. */
  function NotSentMessage(key: string): string {
    "No " + key + " specified. Command not send."
  }

  /** `sanitize_dict`: a copy in which the sensitive keys present are masked. */
  method SanitizeDict(d: map<string, Setting>, sensitive: seq<string>) returns (r: map<string, Setting>)
    ensures r.Keys == d.Keys
    ensures forall k :: k in r && k in sensitive ==> r[k] == Text(Mask)
    ensures forall k :: k in r && k !in sensitive ==> r[k] == d[k]
  {
    r := d;
    var i := 0;
    while i < |sensitive|
      invariant 0 <= i <= |sensitive|
      invariant r.Keys == d.Keys
      invariant forall k :: k in r && k in sensitive[..i] ==> r[k] == Text(Mask)
      invariant forall k :: k in r && k !in sensitive[..i] ==> r[k] == d[k]
    {
      var key := sensitive[i];
      if key in r {
        r := r[key := Text(Mask)];
      }
      assert sensitive[..i + 1] == sensitive[..i] + [key];
      i := i + 1;
    }
    assert sensitive[..i] == sensitive;
  }

  /** The first of `keys` whose setting is falsy, if any. */
  function FirstFalsy(data: map<string, Setting>, keys: seq<string>): (missing: Option<string>)
    requires forall i :: 0 <= i < |keys| ==> keys[i] in data
    ensures missing.None? <==> forall i :: 0 <= i < |keys| ==> Truthy(data[keys[i]])
    ensures missing.Some? ==>
      exists i :: 0 <= i < |keys| && keys[i] == missing.value && !Truthy(data[keys[i]]) && (forall j :: 0 <= j < i ==> Truthy(data[keys[j]]))
    decreases |keys|
  {
    if keys == [] then None
    else if !Truthy(data[keys[0]]) then Some(keys[0])
    else
      var rest := FirstFalsy(data, keys[1..]);
      assert forall i :: 1 <= i < |keys| ==> keys[1..][i - 1] == keys[i];
      assert rest.Some? ==> exists i :: 1 <= i < |keys| && keys[i] == rest.value && !Truthy(data[keys[i]]) && (forall j :: 0 <= j < i ==> Truthy(data[keys[j]])) by {
        if rest.Some? {
          var i :| 0 <= i < |keys[1..]| && keys[1..][i] == rest.value && !Truthy(data[keys[1..][i]]) && (forall j :: 0 <= j < i ==> Truthy(data[keys[1..][j]]));
          assert keys[i + 1] == rest.value && !Truthy(data[keys[i + 1]]);
          forall j | 0 <= j < i + 1 ensures Truthy(data[keys[j]]) {
            if j > 0 {
              assert keys[j] == keys[1..][j - 1];
            }
          }
        }
      }
      rest
  }

  /** The `for key in [...]: if not data[key]: sys.exit(1)` check each script
      runs before it contacts the API: the key it stops at, if any. */
  method FirstMissing(data: map<string, Setting>, keys: seq<string>) returns (missing: Option<string>)
    requires forall i :: 0 <= i < |keys| ==> keys[i] in data
    ensures missing == FirstFalsy(data, keys)
  {
    var i := 0;
    while i < |keys|
      invariant 0 <= i <= |keys|
      invariant FirstFalsy(data, keys[i..]) == FirstFalsy(data, keys)
    {
      assert keys[i..][1..] == keys[i + 1..];
      if !Truthy(data[keys[i]]) {
        return Some(keys[i]);
      }
      i := i + 1;
    }
    missing := None;
  }
}
