/**
 * Per-user settings of the bot: the LLM model name, whether to confirm
 * generated cards, and the number of cards per learning session, with the
 * validation applied when a user changes one of them.
 */
module Config {
  import opened Text

  /** A dynamically typed setting value, as received from the chat command. */
  datatype Value = StrValue(s: string) | BoolValue(b: bool) | IntValue(i: int) | OtherValue

  const DefaultModel := "gpt-4o"
  const DefaultConfirmFlashcards := false
  const DefaultCardsPerSession := 20

  const SettingNames: seq<string> := ["model", "confirm_flashcards", "cards_per_session"]

  /** One of the three setting names. */
  predicate IsSettingName(name: string) {
    name == "model" || name == "confirm_flashcards" || name == "cards_per_session"
  }

  lemma SettingNamesInOrder()
    ensures |SettingNames| == 3
    ensures SettingNames[0] == "model" && SettingNames[1] == "confirm_flashcards" && SettingNames[2] == "cards_per_session"
  {
  }

  lemma SettingNamesListed(name: string)
    ensures name in SettingNames <==> IsSettingName(name)
  {
    assert SettingNames == ["model", "confirm_flashcards", "cards_per_session"];
  }

  // ---------------------------------------------------------------------
  // int() on a string
  // ---------------------------------------------------------------------

  /** Decimal digits with single underscores allowed between two digits. */
  predicate DigitGroups(d: string) {
    && d != [] && IsDigit(d[0]) && IsDigit(d[|d| - 1])
    && (forall i :: 0 <= i < |d| ==> IsDigit(d[i]) || d[i] == '_')
    && (forall i :: 0 <= i < |d| - 1 ==> !(d[i] == '_' && d[i + 1] == '_'))
  }

  /** The number the digits spell, underscores ignored. */
  function DigitsValue(d: string): nat {
    if d == [] then 0
    else if IsDigit(d[|d| - 1]) then DigitsValue(d[..|d| - 1]) * 10 + (d[|d| - 1] as int - '0' as int)
    else DigitsValue(d[..|d| - 1])
  }

  /**
   * int(s) for base 10 on ASCII digits: surrounding whitespace, an optional
   * sign, digits with single underscores.  Python's int() also accepts the
   * decimal digits of other scripts; this parser refuses them.
   */
  function ParseInt(s: string): Option<int> {
    var t := Strip(s);
    var sign := if t != [] && (t[0] == '+' || t[0] == '-') then 1 else 0;
    var digits := t[sign..];
    if !DigitGroups(digits) then None
    else if sign == 1 && t[0] == '-' then Some(0 - DigitsValue(digits) as int)
    else Some(DigitsValue(digits))
  }

  /** str(n) for a natural number. */
  function Decimal(n: nat): (r: string)
    ensures r != [] && DigitGroups(r)
    ensures forall i :: 0 <= i < |r| ==> IsDigit(r[i])
  {
    if n < 10 then [('0' as int + n) as char]
    else Decimal(n / 10) + [('0' as int + n % 10) as char]
  }

  lemma {:induction false} DecimalValue(n: nat)
    ensures DigitsValue(Decimal(n)) == n
  {
    if n >= 10 {
      var d := Decimal(n);
      assert d[..|d| - 1] == Decimal(n / 10);
      DecimalValue(n / 10);
    }
  }

  /** int(str(n)) == n. */
  lemma ParseDecimal(n: nat)
    ensures ParseInt(Decimal(n)) == Some(n)
  {
    ParseUnsigned(Decimal(n));
    DecimalValue(n);
  }

  /** Digits without sign or blanks parse to the number they spell. */
  lemma ParseUnsigned(d: string)
    requires DigitGroups(d)
    ensures ParseInt(d) == Some(DigitsValue(d))
  {
    assert IsStripped(d) by { assert IsDigit(d[0]) && IsDigit(d[|d| - 1]); }
    StripOfStripped(d);
    assert d[0] != '+' && d[0] != '-' by { assert IsDigit(d[0]); }
    assert d[0..] == d;
  }

  // ---------------------------------------------------------------------
  // Validation
  // ---------------------------------------------------------------------

  /** The words read as true, after lower-casing. */
  predicate TrueWord(w: string) {
    w == "true" || w == "yes" || w == "1" || w == "on"
  }

  /** The words read as false, after lower-casing. */
  predicate FalseWord(w: string) {
    w == "false" || w == "no" || w == "0" || w == "off"
  }

  /**
   * The value a setting takes from `value`, or None when the name is
   * unknown or the value is rejected.  A bool is an int in Python, so True
   * is accepted as a card count of 1.
   */
  function Decode(name: string, value: Value): (r: Option<Value>)
    ensures !IsSettingName(name) ==> r == None
  {
    if name == "model" then
      if value.StrValue? then Some(value) else None
    else if name == "confirm_flashcards" then
      match value
      case BoolValue(_) => Some(value)
      case StrValue(s) =>
        if TrueWord(Lower(s)) then Some(BoolValue(true))
        else if FalseWord(Lower(s)) then Some(BoolValue(false))
        else None
      case _ => None
    else if name == "cards_per_session" then
      match value
      case IntValue(i) => if 1 <= i <= 10000 then Some(value) else None
      case BoolValue(b) => if b then Some(IntValue(1)) else None
      case StrValue(s) =>
        var p := ParseInt(s);
        if p.Some? && 1 <= p.value <= 100 then Some(IntValue(p.value)) else None
      case _ => None
    else None
  }

  /** The model name accepts any string and nothing else. */
  lemma ModelAcceptsStrings(value: Value)
    ensures Decode("model", value).Some? <==> value.StrValue?
    ensures Decode("model", value).Some? ==> Decode("model", value) == Some(value)
  {
  }

  /** Card confirmation takes a bool, or a recognised word in any letter case. */
  lemma ConfirmAcceptsWords(value: Value)
    ensures Decode("confirm_flashcards", value).Some? <==>
      value.BoolValue? || (value.StrValue? && (TrueWord(Lower(value.s)) || FalseWord(Lower(value.s))))
    ensures Decode("confirm_flashcards", value).Some? ==> Decode("confirm_flashcards", value).value.BoolValue?
    ensures value.StrValue? && TrueWord(Lower(value.s)) ==> Decode("confirm_flashcards", value) == Some(BoolValue(true))
    ensures value.StrValue? && FalseWord(Lower(value.s)) ==> Decode("confirm_flashcards", value) == Some(BoolValue(false))
  {
    match value
    case StrValue(s) =>
    case BoolValue(_) =>
    case IntValue(_) =>
    case OtherValue =>
  }

  /** A card count given as a number is accepted in 1..10000, given as text only in 1..100. */
  lemma CardsPerSessionRange(value: Value)
    ensures value.IntValue? ==> (Decode("cards_per_session", value).Some? <==> 1 <= value.i <= 10000)
    ensures value.StrValue? ==>
      (Decode("cards_per_session", value).Some? <==>
        ParseInt(value.s).Some? && 1 <= ParseInt(value.s).value <= 100)
    ensures Decode("cards_per_session", value).Some? ==>
      Decode("cards_per_session", value).value.IntValue? && 1 <= Decode("cards_per_session", value).value.i <= 10000
  {
    match value
    case StrValue(s) =>
    case BoolValue(_) =>
    case IntValue(_) =>
    case OtherValue =>
  }

  /** Every count from 1 to 100 typed as a plain decimal number is accepted. */
  lemma CardsPerSessionFromText(n: nat)
    requires 1 <= n <= 100
    ensures Decode("cards_per_session", StrValue(Decimal(n))) == Some(IntValue(n))
  {
    ParseDecimal(n);
  }

  /** A count from 101 to 10000 is accepted as a number but refused when typed as text. */
  lemma TextCapIsLower(n: nat)
    requires 100 < n <= 10000
    ensures Decode("cards_per_session", IntValue(n)) == Some(IntValue(n))
    ensures Decode("cards_per_session", StrValue(Decimal(n))) == None
  {
    ParseDecimal(n);
  }

  // ---------------------------------------------------------------------
  // A user's configuration
  // ---------------------------------------------------------------------

  /** The value each setting of a new configuration has; None for an unknown name. */
  function DefaultSetting(name: string): (r: Option<Value>)
    ensures r.Some? <==> IsSettingName(name)
    ensures name == "cards_per_session" ==> r == Some(IntValue(20))
  {
    if name == "model" then Some(StrValue(DefaultModel))
    else if name == "confirm_flashcards" then Some(BoolValue(DefaultConfirmFlashcards))
    else if name == "cards_per_session" then Some(IntValue(DefaultCardsPerSession))
    else None
  }

  class UserConfig {
    const userId: int
    var model: string
    var confirmFlashcards: bool
    var cardsPerSession: int

    /** Every setting still has its default value. */
    predicate IsDefault()
      reads this
    {
      model == DefaultModel && confirmFlashcards == DefaultConfirmFlashcards && cardsPerSession == DefaultCardsPerSession
    }

    constructor(userId: int)
      ensures this.userId == userId
      ensures IsDefault()
      ensures forall name :: GetSetting(name) == DefaultSetting(name)
    {
      this.userId := userId;
      model := DefaultModel;
      confirmFlashcards := DefaultConfirmFlashcards;
      cardsPerSession := DefaultCardsPerSession;
    }

    /** The current value of a named setting; None for an unknown name. */
    function GetSetting(name: string): (r: Option<Value>)
      reads this
      ensures r.Some? <==> IsSettingName(name)
    {
      if name == "model" then Some(StrValue(model))
      else if name == "confirm_flashcards" then Some(BoolValue(confirmFlashcards))
      else if name == "cards_per_session" then Some(IntValue(cardsPerSession))
      else None
    }

    /** The three settings in declaration order, each with the value GetSetting gives. */
    function ToDict(): (r: seq<(string, Value)>)
      reads this
      ensures |r| == |SettingNames|
      ensures forall i :: 0 <= i < |r| ==> r[i].0 == SettingNames[i] && GetSetting(r[i].0) == Some(r[i].1)
    {
      SettingNamesInOrder();
      [("model", StrValue(model)),
       ("confirm_flashcards", BoolValue(confirmFlashcards)),
       ("cards_per_session", IntValue(cardsPerSession))]
    }

    /**
     * Applies a validated update.  On success the setting reads back as the
     * decoded value and the other settings are untouched; on failure
     * nothing changes.
     */
    method UpdateSetting(name: string, value: Value) returns (ok: bool)
      modifies this
      ensures ok <==> Decode(name, value).Some?
      ensures ok ==> GetSetting(name) == Decode(name, value)
      ensures forall other :: other != name ==> GetSetting(other) == old(GetSetting(other))
      ensures !ok ==> model == old(model) && confirmFlashcards == old(confirmFlashcards) && cardsPerSession == old(cardsPerSession)
    {
      ok := ApplyUpdate(name, value);
    }

    /** The branches of the update, one per setting name, stated field by field. */
    method ApplyUpdate(name: string, value: Value) returns (ok: bool)
      modifies this
      ensures ok <==> Decode(name, value).Some?
      ensures name != "model" ==> model == old(model)
      ensures name != "confirm_flashcards" ==> confirmFlashcards == old(confirmFlashcards)
      ensures name != "cards_per_session" ==> cardsPerSession == old(cardsPerSession)
      ensures Decode(name, value).Some? ==> GetSetting(name) == Decode(name, value)
      ensures Decode(name, value).None? ==> model == old(model) && confirmFlashcards == old(confirmFlashcards) && cardsPerSession == old(cardsPerSession)
    {
      ok := false;
      if name == "model" {
        if value.StrValue? {
          model := value.s;
          ok := true;
        }
      } else if name == "confirm_flashcards" {
        if value.BoolValue? {
          confirmFlashcards := value.b;
          ok := true;
        } else if value.StrValue? {
          var lowered := Lower(value.s);
          if TrueWord(lowered) {
            confirmFlashcards := true;
            ok := true;
          } else if FalseWord(lowered) {
            confirmFlashcards := false;
            ok := true;
          }
        }
      } else if name == "cards_per_session" {
        if value.IntValue? && 1 <= value.i <= 10000 {
          cardsPerSession := value.i;
          ok := true;
        } else if value.BoolValue? && value.b {
          cardsPerSession := 1;
          ok := true;
        } else if value.StrValue? {
          var parsed := ParseInt(value.s);
          if parsed.Some? && 1 <= parsed.value <= 100 {
            cardsPerSession := parsed.value;
            ok := true;
          }
        }
      }
    }
  }

  // ---------------------------------------------------------------------
  // All users' configurations
  // ---------------------------------------------------------------------

  class ConfigManager {
    var configs: map<int, UserConfig>

    /** Each stored configuration belongs to the user it is filed under. */
    predicate Valid()
      reads this
    {
      forall id :: id in configs ==> configs[id].userId == id
    }

    constructor()
      ensures Valid() && configs == map[]
    {
      configs := map[];
    }

    /** The user's configuration, created with the defaults on first use. */
    method GetConfig(userId: int) returns (config: UserConfig)
      requires Valid()
      modifies this
      ensures Valid()
      ensures userId in configs && config == configs[userId]
      ensures userId in old(configs) ==> configs == old(configs)
      ensures userId !in old(configs) ==>
        && fresh(config) && configs == old(configs)[userId := config]
        && config.IsDefault()
    {
      if userId !in configs {
        var created := new UserConfig(userId);
        configs := configs[userId := created];
      }
      config := configs[userId];
    }

    /**
     * The user's configuration (created with the defaults on first use)
     * takes the validated value.  Its other settings keep their values,
     * a rejected value changes nothing, and other users are not touched.
     */
    method UpdateSetting(userId: int, name: string, value: Value) returns (ok: bool)
      requires Valid()
      modifies this, configs.Values
      ensures Valid() && userId in configs
      ensures userId in old(configs) ==> configs == old(configs)
      ensures userId !in old(configs) ==> fresh(configs[userId]) && configs == old(configs)[userId := configs[userId]]
      ensures ok <==> Decode(name, value).Some?
      ensures ok ==> configs[userId].GetSetting(name) == Decode(name, value)
      ensures userId in old(configs) ==>
        forall other :: other != name ==> configs[userId].GetSetting(other) == old(configs[userId].GetSetting(other))
      ensures userId !in old(configs) ==>
        forall other :: other != name ==> configs[userId].GetSetting(other) == DefaultSetting(other)
      ensures !ok && userId in old(configs) ==>
        && configs[userId].model == old(configs[userId].model)
        && configs[userId].confirmFlashcards == old(configs[userId].confirmFlashcards)
        && configs[userId].cardsPerSession == old(configs[userId].cardsPerSession)
      ensures !ok && userId !in old(configs) ==> configs[userId].IsDefault()
      ensures forall id :: id in old(configs) && id != userId ==> configs[id] == old(configs[id]) && unchanged(configs[id])
    {
      var config := GetConfig(userId);
      ok := config.UpdateSetting(name, value);
    }

    /** The user's value for a setting; reading creates a default configuration for a new user and changes nothing else. */
    method GetSetting(userId: int, name: string) returns (r: Option<Value>)
      requires Valid()
      modifies this
      ensures Valid() && userId in configs
      ensures r == configs[userId].GetSetting(name)
      ensures !IsSettingName(name) ==> r == None
      ensures userId in old(configs) ==> configs == old(configs) && r == old(configs[userId].GetSetting(name))
      ensures userId !in old(configs) ==>
        && fresh(configs[userId]) && configs == old(configs)[userId := configs[userId]]
        && configs[userId].IsDefault() && r == DefaultSetting(name)
    {
      var config := GetConfig(userId);
      r := config.GetSetting(name);
    }

    /** All three settings of the user; reading creates a default configuration for a new user and changes nothing else. */
    method GetAllSettings(userId: int) returns (r: seq<(string, Value)>)
      requires Valid()
      modifies this
      ensures Valid() && userId in configs
      ensures r == configs[userId].ToDict()
      ensures userId in old(configs) ==> configs == old(configs) && r == old(configs[userId].ToDict())
      ensures userId !in old(configs) ==>
        && fresh(configs[userId]) && configs == old(configs)[userId := configs[userId]]
        && configs[userId].IsDefault()
        && r == [("model", StrValue(DefaultModel)),
                 ("confirm_flashcards", BoolValue(DefaultConfirmFlashcards)),
                 ("cards_per_session", IntValue(DefaultCardsPerSession))]
    {
      var config := GetConfig(userId);
      r := config.ToDict();
    }

    /** The names offered to the user, each with a description; the same names GetSetting knows. */
    function GetAvailableSettings(): (r: seq<(string, string)>)
      ensures |r| == |SettingNames|
      ensures forall i :: 0 <= i < |r| ==> r[i].0 == SettingNames[i] && r[i].1 != []
    {
      SettingNamesInOrder();
      [("model", "LLM model name (e.g., gpt-4o, gpt-4o-mini)"),
       ("confirm_flashcards", "Whether to ask for confirmation before creating flashcards (true/false)"),
       ("cards_per_session", "Number of flashcards per learning session (1-100, default: 20)")]
    }
  }

  /** A setting that was accepted reads back as the value it was given, and a rejected one as it was before. */
  method UpdateThenRead(m: ConfigManager, userId: int, name: string, value: Value) returns (r: Option<Value>)
    requires m.Valid()
    modifies m, m.configs.Values
    ensures m.Valid()
    ensures Decode(name, value).Some? ==> r == Decode(name, value)
    ensures Decode(name, value).None? && userId in old(m.configs) ==> r == old(m.configs[userId].GetSetting(name))
    ensures Decode(name, value).None? && userId !in old(m.configs) ==> r == DefaultSetting(name)
    ensures !IsSettingName(name) ==> r == None
  {
    var _ := m.UpdateSetting(userId, name, value);
    r := m.GetSetting(userId, name);
  }

  /** Updating one setting leaves the user's other settings reading as before. */
  method UpdateKeepsOtherSetting(m: ConfigManager, userId: int, name: string, other: string, value: Value)
    returns (before: Option<Value>, after: Option<Value>)
    requires m.Valid() && other != name
    modifies m, m.configs.Values
    ensures m.Valid()
    ensures after == before
  {
    before := m.GetSetting(userId, other);
    var _ := m.UpdateSetting(userId, name, value);
    after := m.GetSetting(userId, other);
  }
}
