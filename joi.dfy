/** The part of Joi that the request schemas of middleware/validation.js use:
    JSON request bodies, the rules the schemas chain (`min`, `max`,
    `pattern`, `integer`, `valid`, `items`, `required`/`optional`), and
    validation with `abortEarly: false`, which reports one detail per
    failing rule of every key instead of stopping at the first. */
module Joi {

  /** A parsed JSON request body. JavaScript numbers are kept as reals. */
  datatype Json =
    | JNull
    | JBool(b: bool)
    | JNumber(n: real)
    | JString(s: string)
    | JArray(items: seq<Json>)
    | JObject(fields: map<string, Json>)

  /** `req.body`: a key that is absent stands for `undefined`. */
  type Body = map<string, Json>

  /** `value.length` of a JavaScript string: characters outside the Basic
      Multilingual Plane take two UTF-16 code units. */
  function Utf16Length(s: string): (n: nat)
    ensures |s| <= n <= 2 * |s|
  {
    if s == [] then 0 else (if s[0] as int > 0xFFFF then 2 else 1) + Utf16Length(s[1..])
  }

  /** Within the Basic Multilingual Plane the length counts characters. */
  lemma {:induction false} Utf16LengthBmp(s: string)
    requires forall i :: 0 <= i < |s| ==> s[i] as int <= 0xFFFF
    ensures Utf16Length(s) == |s|
  {
    if s != [] {
      Utf16LengthBmp(s[1..]);
    }
  }

  /** The characters that end a line for the regular expression `.`. */
  predicate IsLineTerminator(c: char)
  {
    c == '\n' || c == '\r' || c == '\U{2028}' || c == '\U{2029}'
  }

  /** The JavaScript `\s` class: white space and line terminators. */
  predicate IsJsWhitespace(c: char)
  {
    || c == '\t' || c == '\n' || c == '\U{000B}' || c == '\U{000C}' || c == '\r' || c == ' '
    || c == '\U{00A0}' || c == '\U{1680}' || ('\U{2000}' <= c <= '\U{200A}')
    || c == '\U{2028}' || c == '\U{2029}' || c == '\U{202F}' || c == '\U{205F}'
    || c == '\U{3000}' || c == '\U{FEFF}'
  }

  /** `[0-9+\-\s()]`. */
  predicate IsPhoneChar(c: char)
  {
    ('0' <= c <= '9') || c == '+' || c == '-' || c == '(' || c == ')' || IsJsWhitespace(c)
  }

  datatype CharClass = LowerCase | UpperCase | Digit

  /** `[a-z]`, `[A-Z]` and `\d`: ASCII only. */
  predicate InClass(c: char, k: CharClass)
  {
    match k
    case LowerCase => 'a' <= c <= 'z'
    case UpperCase => 'A' <= c <= 'Z'
    case Digit => '0' <= c <= '9'
  }

  /** The lookahead `(?=.*[k])` tried at the start of `s`: `.*` may not
      cross a line terminator, so a character of class `k` must occur before
      the first one. */
  predicate LookaheadFinds(s: string, k: CharClass)
  {
    s != [] && (InClass(s[0], k) || (!IsLineTerminator(s[0]) && LookaheadFinds(s[1..], k)))
  }

  /** The two regular expressions of the schemas. */
  datatype Regex =
    | PasswordStrength   // ^(?=.*[a-z])(?=.*[A-Z])(?=.*\d)
    | PhoneNumber        // ^[0-9+\-\s()]+$

  /** Some character of class `k` comes before the first line break. */
  ghost predicate FirstLineHas(s: string, k: CharClass)
  {
    exists i :: 0 <= i < |s| && InClass(s[i], k) && forall j :: 0 <= j < i ==> !IsLineTerminator(s[j])
  }

  /** `regex.test(s)`. The password expression matches exactly when a
      lowercase letter, an uppercase letter and a digit each occur before the
      first line break; the phone expression exactly when the string is
      non-empty and made of phone characters only. */
  predicate RegexTest(re: Regex, s: string)
    ensures re.PasswordStrength? ==>
              (RegexTest(re, s) <==> FirstLineHas(s, LowerCase) && FirstLineHas(s, UpperCase) && FirstLineHas(s, Digit))
    ensures re.PhoneNumber? ==> (RegexTest(re, s) <==> s != [] && forall c :: c in s ==> IsPhoneChar(c))
  {
    match re
    case PasswordStrength =>
      LookaheadFindsIff(s, LowerCase);
      LookaheadFindsIff(s, UpperCase);
      LookaheadFindsIff(s, Digit);
      LookaheadFinds(s, LowerCase) && LookaheadFinds(s, UpperCase) && LookaheadFinds(s, Digit)
    case PhoneNumber =>
      assert (forall i :: 0 <= i < |s| ==> IsPhoneChar(s[i])) <==> (forall c :: c in s ==> IsPhoneChar(c));
      |s| > 0 && forall i :: 0 <= i < |s| ==> IsPhoneChar(s[i])
  }

  /** The rules a `Joi.string()` chains. */
  datatype Rule = MinLength(limit: nat) | MaxLength(limit: nat) | Pattern(re: Regex)

  function RuleCode(r: Rule): string
  {
    match r
    case MinLength(_) => "string.min"
    case MaxLength(_) => "string.max"
    case Pattern(_) => "string.pattern.base"
  }

  predicate RuleHolds(r: Rule, s: string)
  {
    match r
    case MinLength(n) => Utf16Length(s) >= n
    case MaxLength(n) => Utf16Length(s) <= n
    case Pattern(re) => RegexTest(re, s)
  }

  /** The type a key's schema starts from, with its rules. */
  datatype Kind =
    | Text(rules: seq<Rule>)                  // Joi.string()...
    | OneOf(allowed: seq<string>)             // Joi.string().valid(...)
    | Integer(min: int, max: int)             // Joi.number().integer().min().max()
    | TextList(minItems: nat, maxItems: nat)  // Joi.array().items(Joi.string()).min().max()
    | Flag                                    // Joi.boolean()

  /** One key of an object schema: its name, its type, `required()` versus
      `optional()`, and the `.messages({...})` overrides by error code. */
  datatype Key = Key(name: string, kind: Kind, required: bool, messages: map<string, string>)

  type Schema = seq<Key>

  /** A message from the schema's `.messages()`, or Joi's default template for
      the code. */
  datatype Message = Custom(text: string) | JoiDefault(code: string)

  /** An entry of `error.details`; `field` is `path[0]`. */
  datatype Detail = Detail(field: string, code: string, message: Message)

  function Report(key: Key, code: string): Detail
  {
    Detail(key.name, code, if code in key.messages then Custom(key.messages[code]) else JoiDefault(code))
  }

  /** The failing rules of a string, in the order they are chained. */
  function RuleDetails(key: Key, rules: seq<Rule>, s: string): (ds: seq<Detail>)
    ensures |ds| <= |rules|
    ensures forall i :: 0 <= i < |ds| ==> ds[i].field == key.name
  {
    if rules == [] then []
    else (if RuleHolds(rules[0], s) then [] else [Report(key, RuleCode(rules[0]))])
         + RuleDetails(key, rules[1..], s)
  }

  /** The details of the `items(Joi.string())` check, one per bad item. */
  function ItemDetails(key: Key, items: seq<Json>): (ds: seq<Detail>)
    ensures |ds| <= |items|
    ensures forall i :: 0 <= i < |ds| ==> ds[i].field == key.name
  {
    if items == [] then []
    else
      (if !items[0].JString? then [Report(key, "string.base")]
       else if items[0].s == "" then [Report(key, "string.empty")]
       else [])
      + ItemDetails(key, items[1..])
  }

  predicate IsInteger(n: real)
  {
    n.Floor as real == n
  }

  /** JavaScript's `Number.MAX_SAFE_INTEGER`, 2^53 - 1. */
  const MaxSafeInteger: int := 0x1F_FFFF_FFFF_FFFF

  /** The details for a value that is present.
      - A string key reports a wrong type or the empty string alone, and
        otherwise every failing chained rule.
      - A `valid()` key reports `any.only` for a value outside the list and
        then, since errors are collected, still runs the string type check,
        which adds `string.base` or `string.empty`.
      - A number outside the safe integer range fails with `number.unsafe`
        alone; otherwise every failing rule is reported. */
  function ValueDetails(key: Key, v: Json): (ds: seq<Detail>)
    ensures forall i :: 0 <= i < |ds| ==> ds[i].field == key.name
    ensures key.kind.OneOf? ==> (ds == [] <==> v.JString? && v.s in key.kind.allowed)
    ensures key.kind.OneOf? && ds != [] ==> ds[0] == Report(key, "any.only")
    ensures key.kind.OneOf? && (!v.JString? || (v.s == "" && "" !in key.kind.allowed)) ==> |ds| == 2
    ensures key.kind.Integer? && v.JNumber? && (v.n > MaxSafeInteger as real || v.n < -MaxSafeInteger as real) ==>
              ds == [Report(key, "number.unsafe")]
    ensures key.kind.Integer? ==>
              (ds == [] <==> v.JNumber? && IsInteger(v.n) && key.kind.min as real <= v.n <= key.kind.max as real
                             && -MaxSafeInteger as real <= v.n <= MaxSafeInteger as real)
  {
    match key.kind
    case Text(rules) =>
      if !v.JString? then [Report(key, "string.base")]
      else if v.s == "" then [Report(key, "string.empty")]
      else RuleDetails(key, rules, v.s)
    case OneOf(allowed) =>
      if v.JString? && v.s in allowed then []
      else
        [Report(key, "any.only")]
        + (if !v.JString? then [Report(key, "string.base")]
           else if v.s == "" then [Report(key, "string.empty")]
           else [])
    case Integer(lo, hi) =>
      if !v.JNumber? then [Report(key, "number.base")]
      else if v.n > MaxSafeInteger as real || v.n < -MaxSafeInteger as real then [Report(key, "number.unsafe")]
      else
        (if IsInteger(v.n) then [] else [Report(key, "number.integer")])
        + (if v.n < lo as real then [Report(key, "number.min")] else [])
        + (if v.n > hi as real then [Report(key, "number.max")] else [])
    case TextList(lo, hi) =>
      if !v.JArray? then [Report(key, "array.base")]
      else
        ItemDetails(key, v.items)
        + (if |v.items| < lo then [Report(key, "array.min")] else [])
        + (if |v.items| > hi then [Report(key, "array.max")] else [])
    case Flag =>
      if v.JBool? then [] else [Report(key, "boolean.base")]
  }

  /** The details of one key: `any.required` for a missing required key,
      nothing for a missing optional one. */
  function KeyDetails(key: Key, body: Body): (ds: seq<Detail>)
    ensures forall i :: 0 <= i < |ds| ==> ds[i].field == key.name
  {
    if key.name !in body then (if key.required then [Report(key, "any.required")] else [])
    else ValueDetails(key, body[key.name])
  }

  /** `schema.validate(body, { abortEarly: false })`: the details of every
      key, in the schema's key order; each names a key of the schema. */
  function Details(schema: Schema, body: Body): (ds: seq<Detail>)
    ensures forall k :: 0 <= k < |ds| ==> exists i :: 0 <= i < |schema| && ds[k].field == schema[i].name
  {
    if schema == [] then []
    else
      var head, tail := KeyDetails(schema[0], body), Details(schema[1..], body);
      assert forall k :: 0 <= k < |tail| ==> (head + tail)[|head| + k] == tail[k];
      assert forall j :: 0 <= j < |schema| - 1 ==> schema[1..][j] == schema[j + 1];
      head + tail
  }

  /** Details come in schema order: those of the first `n` keys precede
      those of the keys after them. */
  lemma {:induction false} DetailsFollowSchemaOrder(schema: Schema, body: Body, n: nat)
    requires n <= |schema|
    ensures Details(schema, body) == Details(schema[..n], body) + Details(schema[n..], body)
  {
    if n > 0 {
      DetailsFollowSchemaOrder(schema[1..], body, n - 1);
      assert schema[..n][0] == schema[0] && schema[..n][1..] == schema[1..][..n - 1];
      assert schema[1..][n - 1..] == schema[n..];
    } else {
      assert schema[..0] == [] && schema[0..] == schema;
    }
  }

  /** With `abortEarly: false` nothing is dropped: validation passes exactly
      when every key passes. */
  lemma {:induction false} DetailsCollectEveryKey(schema: Schema, body: Body)
    ensures Details(schema, body) == [] <==> forall i :: 0 <= i < |schema| ==> KeyDetails(schema[i], body) == []
  {
    if schema != [] {
      DetailsCollectEveryKey(schema[1..], body);
      if forall i :: 0 <= i < |schema| ==> KeyDetails(schema[i], body) == [] {
        assert KeyDetails(schema[0], body) == [];
        forall i | 0 <= i < |schema| - 1 ensures KeyDetails(schema[1..][i], body) == [] {
          assert schema[1..][i] == schema[i + 1];
        }
      }
      if Details(schema, body) == [] {
        forall i | 0 <= i < |schema| ensures KeyDetails(schema[i], body) == [] {
          if i > 0 {
            assert schema[i] == schema[1..][i - 1];
          }
        }
      }
    }
  }

  /** A failing key is never silently dropped: its first detail is in the
      report. */
  lemma {:induction false} FailingKeyReported(schema: Schema, body: Body, i: nat)
    requires i < |schema|
    requires KeyDetails(schema[i], body) != []
    ensures KeyDetails(schema[i], body)[0] in Details(schema, body)
  {
    if i > 0 {
      FailingKeyReported(schema[1..], body, i - 1);
    }
  }

  /** A lookahead `(?=.*[k])` at the start succeeds exactly when some
      character of class `k` has no line terminator before it. */
  lemma {:induction false} LookaheadFindsIff(s: string, k: CharClass)
    ensures LookaheadFinds(s, k) <==> FirstLineHas(s, k)
  {
    if s != [] {
      LookaheadFindsIff(s[1..], k);
      if LookaheadFinds(s, k) && !InClass(s[0], k) {
        var i :| 0 <= i < |s| - 1 && InClass(s[1..][i], k) && forall j :: 0 <= j < i ==> !IsLineTerminator(s[1..][j]);
        assert InClass(s[i + 1], k) && forall j :: 0 <= j < i + 1 ==> !IsLineTerminator(s[j]);
      }
      if !InClass(s[0], k) && exists i :: 0 <= i < |s| && InClass(s[i], k) && forall j :: 0 <= j < i ==> !IsLineTerminator(s[j]) {
        var i :| 0 <= i < |s| && InClass(s[i], k) && forall j :: 0 <= j < i ==> !IsLineTerminator(s[j]);
        assert i > 0 && !IsLineTerminator(s[0]);
        assert InClass(s[1..][i - 1], k) && forall j :: 0 <= j < i - 1 ==> !IsLineTerminator(s[1..][j]);
      }
    }
  }

  /** A string passes its rules exactly when each rule holds of it. */
  lemma {:induction false} RuleDetailsEmptyIff(key: Key, rules: seq<Rule>, s: string)
    ensures RuleDetails(key, rules, s) == [] <==> forall i :: 0 <= i < |rules| ==> RuleHolds(rules[i], s)
  {
    if rules != [] {
      RuleDetailsEmptyIff(key, rules[1..], s);
      assert forall i :: 0 < i < |rules| ==> rules[i] == rules[1..][i - 1];
    }
  }

  /** An array passes `items(Joi.string())` exactly when every item is a
      non-empty string. */
  lemma {:induction false} ItemDetailsEmptyIff(key: Key, items: seq<Json>)
    ensures ItemDetails(key, items) == [] <==> forall i :: 0 <= i < |items| ==> items[i].JString? && items[i].s != ""
  {
    if items != [] {
      ItemDetailsEmptyIff(key, items[1..]);
      assert forall i :: 0 < i < |items| ==> items[i] == items[1..][i - 1];
    }
  }

  /** A `Joi.string()` key passes exactly when it is present if required and,
      when present, is a non-empty string satisfying every rule. */
  lemma TextKeyPasses(key: Key, body: Body)
    requires key.kind.Text?
    ensures KeyDetails(key, body) == [] <==>
              && (key.required ==> key.name in body)
              && (key.name in body ==>
                    && body[key.name].JString? && body[key.name].s != ""
                    && forall i :: 0 <= i < |key.kind.rules| ==> RuleHolds(key.kind.rules[i], body[key.name].s))
  {
    if key.name in body && body[key.name].JString? {
      RuleDetailsEmptyIff(key, key.kind.rules, body[key.name].s);
    }
  }

  /** A `Joi.array().items(Joi.string())` key passes exactly when it is
      present if required and, when present, is an array of non-empty
      strings whose size is within bounds. */
  lemma TextListKeyPasses(key: Key, body: Body)
    requires key.kind.TextList?
    ensures KeyDetails(key, body) == [] <==>
              && (key.required ==> key.name in body)
              && (key.name in body ==>
                    && body[key.name].JArray?
                    && key.kind.minItems <= |body[key.name].items| <= key.kind.maxItems
                    && forall i :: 0 <= i < |body[key.name].items| ==>
                         body[key.name].items[i].JString? && body[key.name].items[i].s != "")
  {
    if key.name in body && body[key.name].JArray? {
      ItemDetailsEmptyIff(key, body[key.name].items);
    }
  }

  /** The `{ field, message }` entries of the 400 response. */
  datatype FieldError = FieldError(field: string, message: Message)

  datatype Verdict = Accept(value: Body) | Reject(status: nat, errors: seq<FieldError>)

  /** What every `validate*` middleware decides: a 400 with one entry per
      detail, `field` being the detail's first path element, or the validated
      value (the body itself, since conversions are not modelled). */
  function Check(schema: Schema, body: Body): (v: Verdict)
    ensures v.Accept? <==> Details(schema, body) == []
    ensures v.Accept? ==> v.value == body
    ensures v.Reject? ==> v.status == 400
    ensures v.Reject? ==>
              && |v.errors| == |Details(schema, body)|
              && forall i :: 0 <= i < |v.errors| ==>
                   v.errors[i] == FieldError(Details(schema, body)[i].field, Details(schema, body)[i].message)
  {
    var ds := Details(schema, body);
    if ds == [] then Accept(body)
    else Reject(400, seq(|ds|, i requires 0 <= i < |ds| => FieldError(ds[i].field, ds[i].message)))
  }
}
