/** The request schemas of middleware/validation.js and the middleware that
    applies them. Each schema comes with a predicate that states its
    constraints directly, field by field, and a lemma that the schema
    accepts a body exactly when the predicate holds. */
module Validation {
  import opened Common
  import opened Joi
  import opened Tokens
  import Auth

  const RegisterName: Key :=
    Key("name", Text([MinLength(2), MaxLength(50)]), true,
        map["string.min" := "Name must be at least 2 characters long",
            "string.max" := "Name cannot exceed 50 characters",
            "any.required" := "Name is required"])
  const RegisterEmail: Key :=
    Key("email", Text([]), true,
        map["string.email" := "Please provide a valid email address",
            "any.required" := "Email is required"])
  const RegisterPassword: Key :=
    Key("password", Text([MinLength(6), MaxLength(128), Pattern(PasswordStrength)]), true,
        map["string.min" := "Password must be at least 6 characters long",
            "string.max" := "Password cannot exceed 128 characters",
            "string.pattern.base" := "Password must contain at least one lowercase letter, one uppercase letter, and one number",
            "any.required" := "Password is required"])
  const RegisterPhone: Key :=
    Key("phoneNumber", Text([Pattern(PhoneNumber)]), false,
        map["string.pattern.base" := "Please provide a valid phone number"])

  /** `registerSchema`. */
  const RegisterSchema: Schema := [RegisterName, RegisterEmail, RegisterPassword, RegisterPhone]

  const LoginEmail: Key :=
    Key("email", Text([]), true,
        map["string.email" := "Please provide a valid email address",
            "any.required" := "Email is required"])
  const LoginPassword: Key :=
    Key("password", Text([]), true, map["any.required" := "Password is required"])

  /** `loginSchema`. */
  const LoginSchema: Schema := [LoginEmail, LoginPassword]

  const Female: string := "N\U{1EEF}"                // Nữ
  const Other: string := "Kh\U{00E1}c"               // Khác
  const Everyone: string := "T\U{1EA5}t c\U{1EA3}"   // Tất cả

  const ProfileName: Key := Key("name", Text([MinLength(2), MaxLength(50)]), false, map[])
  const ProfileAge: Key :=
    Key("age", Integer(18, 100), false,
        map["number.min" := "Age must be at least 18",
            "number.max" := "Age cannot exceed 100"])
  const ProfileLocation: Key := Key("location", Text([MaxLength(100)]), false, map[])
  const ProfileBio: Key :=
    Key("bio", Text([MaxLength(500)]), false, map["string.max" := "Bio cannot exceed 500 characters"])
  const ProfileInterests: Key :=
    Key("interests", TextList(1, 20), false,
        map["array.min" := "Please select at least one interest",
            "array.max" := "Cannot select more than 20 interests"])
  const ProfileGender: Key := Key("gender", OneOf(["Nam", Female, Other]), false, map[])
  const ProfileLookingFor: Key := Key("lookingFor", OneOf(["Nam", Female, Everyone]), false, map[])

  /** `updateProfileSchema`. */
  const UpdateProfileSchema: Schema :=
    [ProfileName, ProfileAge, ProfileLocation, ProfileBio, ProfileInterests, ProfileGender, ProfileLookingFor]

  const SwipeUser: Key := Key("swipedUserId", Text([]), true, map["any.required" := "Swiped user ID is required"])
  const SwipeLike: Key := Key("isLike", Flag, true, map["any.required" := "Like status is required"])

  /** `swipeSchema`. */
  const SwipeSchema: Schema := [SwipeUser, SwipeLike]

  /** A string Joi accepts at all: `Joi.string()` refuses the empty string. */
  predicate FilledString(v: Json)
  {
    v.JString? && v.s != ""
  }

  predicate FilledStringWithin(v: Json, lo: nat, hi: nat)
  {
    FilledString(v) && lo <= Utf16Length(v.s) <= hi
  }

  /** A lowercase letter, an uppercase letter and a digit, each before the
      first line break. */
  ghost predicate StrongPassword(s: string)
  {
    FirstLineHas(s, LowerCase) && FirstLineHas(s, UpperCase) && FirstLineHas(s, Digit)
  }

  /** Digits, `+`, `-`, white space and parentheses only, at least one. */
  ghost predicate PhoneShaped(s: string)
  {
    s != [] && forall c :: c in s ==> IsPhoneChar(c)
  }

  /** `registerSchema`: a name of 2 to 50 characters, an email, a password of
      6 to 128 characters with a lowercase letter, an uppercase letter and a
      digit, and optionally a phone number. */
  ghost predicate RegisterValid(b: Body)
  {
    && "name" in b && FilledStringWithin(b["name"], 2, 50)
    && "email" in b && FilledString(b["email"])
    && "password" in b && FilledStringWithin(b["password"], 6, 128) && StrongPassword(b["password"].s)
    && ("phoneNumber" in b ==> FilledString(b["phoneNumber"]) && PhoneShaped(b["phoneNumber"].s))
  }

  /** `loginSchema`: an email and a password, both non-empty strings. */
  ghost predicate LoginValid(b: Body)
  {
    "email" in b && FilledString(b["email"]) && "password" in b && FilledString(b["password"])
  }

  /** `updateProfileSchema`: every key optional; when present, a name of 2 to
      50 characters, an integer age from 18 to 100, a location of at most 100
      and a bio of at most 500 characters, 1 to 20 interests, and a gender and
      a preference from their lists. */
  ghost predicate ProfileValid(b: Body)
  {
    && ("name" in b ==> FilledStringWithin(b["name"], 2, 50))
    && ("age" in b ==> b["age"].JNumber? && IsInteger(b["age"].n) && 18.0 <= b["age"].n <= 100.0)
    && ("location" in b ==> FilledStringWithin(b["location"], 1, 100))
    && ("bio" in b ==> FilledStringWithin(b["bio"], 1, 500))
    && ("interests" in b ==>
          && b["interests"].JArray? && 1 <= |b["interests"].items| <= 20
          && forall v :: v in b["interests"].items ==> FilledString(v))
    && ("gender" in b ==> b["gender"] in {JString("Nam"), JString(Female), JString(Other)})
    && ("lookingFor" in b ==> b["lookingFor"] in {JString("Nam"), JString(Female), JString(Everyone)})
  }

  /** `swipeSchema`: a user id string and a boolean. */
  ghost predicate SwipeValid(b: Body)
  {
    "swipedUserId" in b && FilledString(b["swipedUserId"]) && "isLike" in b && b["isLike"].JBool?
  }

  lemma RegisterNameIff(b: Body)
    ensures KeyDetails(RegisterName, b) == [] <==> "name" in b && FilledStringWithin(b["name"], 2, 50)
  {
    TextKeyPasses(RegisterName, b);
    if "name" in b && b["name"].JString? {
      var rules := RegisterName.kind.rules;
      assert (forall i :: 0 <= i < |rules| ==> RuleHolds(rules[i], b["name"].s)) <==>
             RuleHolds(rules[0], b["name"].s) && RuleHolds(rules[1], b["name"].s);
    }
  }

  lemma RegisterPasswordIff(b: Body)
    ensures KeyDetails(RegisterPassword, b) == [] <==>
            "password" in b && FilledStringWithin(b["password"], 6, 128) && StrongPassword(b["password"].s)
  {
    TextKeyPasses(RegisterPassword, b);
    if "password" in b && b["password"].JString? {
      var p := b["password"].s;
      var rules := RegisterPassword.kind.rules;
      assert (forall i :: 0 <= i < |rules| ==> RuleHolds(rules[i], p)) <==>
             RuleHolds(rules[0], p) && RuleHolds(rules[1], p) && RuleHolds(rules[2], p);
    }
  }

  /** An ASCII password of 6 to 128 characters opening with an uppercase
      letter, a lowercase letter and a digit passes registerSchema. */
  lemma AsciiPasswordAccepted(p: string)
    requires 6 <= |p| <= 128 && forall i :: 0 <= i < |p| ==> p[i] as int < 0x80
    requires InClass(p[0], UpperCase) && InClass(p[1], LowerCase) && InClass(p[2], Digit)
    ensures KeyDetails(RegisterPassword, map["password" := JString(p)]) == []
  {
    Utf16LengthBmp(p);
    assert !IsLineTerminator(p[0]) && !IsLineTerminator(p[1]);
    assert FirstLineHas(p, UpperCase) && FirstLineHas(p, LowerCase);
    assert FirstLineHas(p, Digit) by {
      assert forall j :: 0 <= j < 2 ==> !IsLineTerminator(p[j]);
    }
    RegisterPasswordIff(map["password" := JString(p)]);
  }

  /** registerSchema admits passwords of up to 128 characters, while bcrypt
      reads 72 bytes of them: two different 73-character passwords, both
      accepted at registration, each log in to the other's account. */
  lemma TruncatedPasswordsCollide(salt: nat)
    ensures var p1, p2 := "Aa1" + seq(69, _ => 'x') + "y", "Aa1" + seq(69, _ => 'x') + "z";
            && KeyDetails(RegisterPassword, map["password" := JString(p1)]) == []
            && KeyDetails(RegisterPassword, map["password" := JString(p2)]) == []
            && p1 != p2
            && Compare(p2, Hash(p1, salt)) && Compare(p1, Hash(p2, salt))
  {
    var common := "Aa1" + seq(69, _ => 'x');
    var p1, p2 := common + "y", common + "z";
    assert forall i :: 0 <= i < |common| ==> common[i] as int < 0x80;
    assert forall i :: 0 <= i < |p1| ==> p1[i] as int < 0x80;
    assert forall i :: 0 <= i < |p2| ==> p2[i] as int < 0x80;
    assert p1[72] != p2[72];
    assert p1[..72] == common == p2[..72];
    Utf8Ascii(p1);
    Utf8Ascii(p2);
    assert Utf8(p1)[..KeyBytes] == Utf8(p2)[..KeyBytes];
    LongPasswordsTruncated(p1, p2, salt);
    LongPasswordsTruncated(p2, p1, salt);
    AsciiPasswordAccepted(p1);
    AsciiPasswordAccepted(p2);
  }

  lemma RegisterPhoneIff(b: Body)
    ensures KeyDetails(RegisterPhone, b) == [] <==>
            ("phoneNumber" in b ==> FilledString(b["phoneNumber"]) && PhoneShaped(b["phoneNumber"].s))
  {
  }


  lemma RegisterSchemaIff(b: Body)
    ensures Check(RegisterSchema, b).Accept? <==> RegisterValid(b)
  {
    DetailsCollectEveryKey(RegisterSchema, b);
    RegisterNameIff(b);
    TextKeyPasses(RegisterEmail, b);
    RegisterPasswordIff(b);
    RegisterPhoneIff(b);
    assert RegisterSchema[0] == RegisterName && RegisterSchema[1] == RegisterEmail;
    assert RegisterSchema[2] == RegisterPassword && RegisterSchema[3] == RegisterPhone;
  }

  /** After registerSchema, `phoneNumber || null` never drops a phone
      number: an accepted one is a non-empty string and is stored as given,
      and only an absent one is stored as null. */
  lemma ValidatedPhoneStored(b: Body)
    requires Check(RegisterSchema, b).Accept?
    ensures "phoneNumber" in b ==>
              b["phoneNumber"].JString? && Auth.StoredPhone(Some(b["phoneNumber"].s)) == Some(b["phoneNumber"].s)
    ensures "phoneNumber" !in b ==> Auth.StoredPhone(None) == None
  {
    RegisterSchemaIff(b);
  }

  lemma LoginSchemaIff(b: Body)
    ensures Check(LoginSchema, b).Accept? <==> LoginValid(b)
  {
    DetailsCollectEveryKey(LoginSchema, b);
    TextKeyPasses(LoginEmail, b);
    TextKeyPasses(LoginPassword, b);
    assert LoginSchema[0] == LoginEmail && LoginSchema[1] == LoginPassword;
  }

  lemma ProfileAgeIff(b: Body)
    ensures KeyDetails(ProfileAge, b) == [] <==>
            ("age" in b ==> b["age"].JNumber? && IsInteger(b["age"].n) && 18.0 <= b["age"].n <= 100.0)
  {
  }

  lemma ProfileInterestsIff(b: Body)
    ensures KeyDetails(ProfileInterests, b) == [] <==>
            ("interests" in b ==>
               && b["interests"].JArray? && 1 <= |b["interests"].items| <= 20
               && forall v :: v in b["interests"].items ==> FilledString(v))
  {
    TextListKeyPasses(ProfileInterests, b);
    if "interests" in b && b["interests"].JArray? {
      var items := b["interests"].items;
      if forall v :: v in items ==> FilledString(v) {
        forall i | 0 <= i < |items| ensures items[i].JString? && items[i].s != "" {
          assert FilledString(items[i]);
        }
      }
      if forall i :: 0 <= i < |items| ==> items[i].JString? && items[i].s != "" {
        forall v | v in items ensures FilledString(v) {
          var i :| 0 <= i < |items| && items[i] == v;
        }
      }
    }
  }

  lemma ProfileChoicesIff(b: Body)
    ensures KeyDetails(ProfileGender, b) == [] <==>
            ("gender" in b ==> b["gender"] in {JString("Nam"), JString(Female), JString(Other)})
    ensures KeyDetails(ProfileLookingFor, b) == [] <==>
            ("lookingFor" in b ==> b["lookingFor"] in {JString("Nam"), JString(Female), JString(Everyone)})
  {
  }

  lemma ProfileTextsIff(b: Body)
    ensures KeyDetails(ProfileName, b) == [] <==> ("name" in b ==> FilledStringWithin(b["name"], 2, 50))
    ensures KeyDetails(ProfileLocation, b) == [] <==> ("location" in b ==> FilledStringWithin(b["location"], 1, 100))
    ensures KeyDetails(ProfileBio, b) == [] <==> ("bio" in b ==> FilledStringWithin(b["bio"], 1, 500))
  {
    TextKeyPasses(ProfileName, b);
    TextKeyPasses(ProfileLocation, b);
    TextKeyPasses(ProfileBio, b);
    if "name" in b && b["name"].JString? {
      var rules := ProfileName.kind.rules;
      assert (forall i :: 0 <= i < |rules| ==> RuleHolds(rules[i], b["name"].s)) <==>
             RuleHolds(rules[0], b["name"].s) && RuleHolds(rules[1], b["name"].s);
    }
  }

  /** A seven-key schema passes exactly when each of its seven keys does. */
  lemma {:induction false} SevenKeysPass(sc: Schema, b: Body)
    requires |sc| == 7
    ensures Check(sc, b).Accept? <==>
              && KeyDetails(sc[0], b) == [] && KeyDetails(sc[1], b) == [] && KeyDetails(sc[2], b) == []
              && KeyDetails(sc[3], b) == [] && KeyDetails(sc[4], b) == [] && KeyDetails(sc[5], b) == []
              && KeyDetails(sc[6], b) == []
  {
    DetailsCollectEveryKey(sc, b);
    if KeyDetails(sc[0], b) == [] && KeyDetails(sc[1], b) == [] && KeyDetails(sc[2], b) == []
       && KeyDetails(sc[3], b) == [] && KeyDetails(sc[4], b) == [] && KeyDetails(sc[5], b) == []
       && KeyDetails(sc[6], b) == [] {
      forall i | 0 <= i < |sc| ensures KeyDetails(sc[i], b) == [] {
        assert i in {0, 1, 2, 3, 4, 5, 6};
      }
    }
  }

  lemma UpdateProfileSchemaIff(b: Body)
    ensures Check(UpdateProfileSchema, b).Accept? <==> ProfileValid(b)
  {
    SevenKeysPass(UpdateProfileSchema, b);
    assert UpdateProfileSchema[0] == ProfileName && UpdateProfileSchema[1] == ProfileAge;
    assert UpdateProfileSchema[2] == ProfileLocation && UpdateProfileSchema[3] == ProfileBio;
    assert UpdateProfileSchema[4] == ProfileInterests && UpdateProfileSchema[5] == ProfileGender;
    assert UpdateProfileSchema[6] == ProfileLookingFor;
    ProfileTextsIff(b);
    ProfileAgeIff(b);
    ProfileInterestsIff(b);
    ProfileChoicesIff(b);
  }

  lemma SwipeSchemaIff(b: Body)
    ensures Check(SwipeSchema, b).Accept? <==> SwipeValid(b)
  {
    DetailsCollectEveryKey(SwipeSchema, b);
    TextKeyPasses(SwipeUser, b);
    assert SwipeSchema[0] == SwipeUser && SwipeSchema[1] == SwipeLike;
  }

  /** The JSON answer of a middleware that refuses the request. */
  datatype Response = Response(status: nat, success: bool, message: string, errors: seq<FieldError>)

  /** The parts of an Express request the middlewares touch: the body, the
      response sent, and whether `next()` was called. */
  class Request {
    var body: Body
    var response: Option<Response>
    var forwarded: bool

    constructor (body: Body)
      ensures this.body == body && response == None && !forwarded
    {
      this.body := body;
      response := None;
      forwarded := false;
    }
  }

  /** `validateRegister`, `validateLogin`, `validateUpdateProfile` and
      `validateSwipe`, with the schema as a parameter: a refused body gets a
      400 listing every failing detail and the request stops there; an
      accepted one replaces `req.body` with the validated value and goes on. */
  method ValidateRequest(req: Request, schema: Schema)
    modifies req
    ensures Check(schema, old(req.body)).Reject? ==>
              && req.response == Some(Response(400, false, "Validation failed", Check(schema, old(req.body)).errors))
              && req.body == old(req.body) && req.forwarded == old(req.forwarded)
    ensures Check(schema, old(req.body)).Accept? ==>
              && req.body == Check(schema, old(req.body)).value
              && req.forwarded && req.response == old(req.response)
  {
    var verdict := Check(schema, req.body);
    if verdict.Reject? {
      req.response := Some(Response(verdict.status, false, "Validation failed", verdict.errors));
      return;
    }
    req.body := verdict.value;
    req.forwarded := true;
  }
}
