/**
 * The two preference helpers of `PopUpClaudeAgent` (popup-claude-agent.js):
 * `analyzeUserPreferences`, which folds stored records into a profile keeping
 * the LAST record of each type it knows, and `summarizePreferences`, which
 * builds the welcome-back phrase from the FIRST cuisine and budget records.
 */
module Preferences {
  import opened Options
  import opened Catalog

  /** The six profile questions; `Name` is the tag stored in `preference_type`. */
  datatype QuestionType = CuisinePreference | BudgetRange | DiningFrequency | LastRestaurant | DiningStyle | DealInterest
  {
    function Name(): string {
      match this
      case CuisinePreference => "cuisine_preference"
      case BudgetRange => "budget_range"
      case DiningFrequency => "dining_frequency"
      case LastRestaurant => "last_restaurant"
      case DiningStyle => "dining_style"
      case DealInterest => "deal_interest"
    }
  }

  /** The object `analyzeUserPreferences` returns: a field stays absent until a record of its type is seen. */
  datatype UserProfile = UserProfile(
    cuisinePreference: Option<string>, budgetRange: Option<string>,
    diningStyle: Option<string>, dealsInterest: Option<string>)

  /** The value of the last record of type `t`, if any. */
  function LastValueOf(prefs: seq<Preference>, t: string): Option<string> {
    if prefs == [] then None
    else if prefs[|prefs| - 1].preferenceType == t then Some(prefs[|prefs| - 1].preferenceValue)
    else LastValueOf(prefs[..|prefs| - 1], t)
  }

  /** Index `i` holds the last record of type `t`. */
  ghost predicate IsLastOfType(prefs: seq<Preference>, t: string, i: int) {
    0 <= i < |prefs| && prefs[i].preferenceType == t &&
    forall j :: i < j < |prefs| ==> prefs[j].preferenceType != t
  }

  lemma {:induction false} LastValueAt(prefs: seq<Preference>, t: string, i: int)
    requires IsLastOfType(prefs, t, i)
    ensures LastValueOf(prefs, t) == Some(prefs[i].preferenceValue)
  {
    if i < |prefs| - 1 {
      LastValueAt(prefs[..|prefs| - 1], t, i);
    }
  }

  lemma {:induction false} LastValueNone(prefs: seq<Preference>, t: string)
    ensures LastValueOf(prefs, t) == None <==> forall i :: 0 <= i < |prefs| ==> prefs[i].preferenceType != t
  {
    if prefs != [] {
      LastValueNone(prefs[..|prefs| - 1], t);
    }
  }

  /** When the last-value lookup finds something, it is the value of the last record of that type. */
  lemma LastValueFound(prefs: seq<Preference>, t: string, v: string)
    requires LastValueOf(prefs, t) == Some(v)
    ensures exists i :: IsLastOfType(prefs, t, i) && prefs[i].preferenceValue == v
  {
    LastValueNone(prefs, t);
    var k :| 0 <= k < |prefs| && prefs[k].preferenceType == t;
    var i := LastIndexFrom(prefs, t, k);
    LastValueAt(prefs, t, i);
  }

  /** The index of the last record of type `t`, searching from `k` (which has that type). */
  ghost function LastIndexFrom(prefs: seq<Preference>, t: string, k: int): (i: int)
    requires 0 <= k < |prefs| && prefs[k].preferenceType == t
    ensures IsLastOfType(prefs, t, i)
    decreases |prefs| - k
  {
    if forall j :: k < j < |prefs| ==> prefs[j].preferenceType != t then k
    else
      var j :| k < j < |prefs| && prefs[j].preferenceType == t;
      LastIndexFrom(prefs, t, j)
  }

  /** The profile of a record list: for each known type, the value of its last record. */
  function ProfileOf(prefs: seq<Preference>): UserProfile {
    UserProfile(
      LastValueOf(prefs, CuisinePreference.Name()), LastValueOf(prefs, BudgetRange.Name()),
      LastValueOf(prefs, DiningStyle.Name()), LastValueOf(prefs, DealInterest.Name()))
  }

  /** `analyzeUserPreferences`: one pass over the records, each known type overwriting its field. */
  method AnalyzeUserPreferences(preferences: seq<Preference>) returns (profile: UserProfile)
    ensures profile == ProfileOf(preferences)
  {
    profile := UserProfile(None, None, None, None);
    for i := 0 to |preferences|
      invariant profile == ProfileOf(preferences[..i])
    {
      var pref := preferences[i];
      assert preferences[..i + 1][..i] == preferences[..i];
      if pref.preferenceType == "cuisine_preference" {
        profile := profile.(cuisinePreference := Some(pref.preferenceValue));
      } else if pref.preferenceType == "budget_range" {
        profile := profile.(budgetRange := Some(pref.preferenceValue));
      } else if pref.preferenceType == "dining_style" {
        profile := profile.(diningStyle := Some(pref.preferenceValue));
      } else if pref.preferenceType == "deal_interest" {
        profile := profile.(dealsInterest := Some(pref.preferenceValue));
      }
    }
    assert preferences[..|preferences|] == preferences;
  }

  /**
   * Records come back from `getUserPreferences` newest first, so the value the
   * profile keeps for a type is that of an OLDEST record of the type.
   */
  lemma StoredProfileKeepsOldest(table: seq<Preference>, u: string, t: string, v: string)
    requires LastValueOf(GetUserPreferences(table, u), t) == Some(v)
    ensures exists p :: p in table && p.userId == u && p.preferenceType == t && p.preferenceValue == v &&
                        forall q :: q in table && q.userId == u && q.preferenceType == t ==> p.createdAt <= q.createdAt
  {
    var rows := GetUserPreferences(table, u);
    LastValueFound(rows, t, v);
    var i :| IsLastOfType(rows, t, i) && rows[i].preferenceValue == v;
    var p := rows[i];
    assert p in rows;
    forall q | q in table && q.userId == u && q.preferenceType == t ensures p.createdAt <= q.createdAt {
      assert q in rows;
      var j :| 0 <= j < |rows| && rows[j] == q;
      assert j <= i;
      if j < i {
        assert ByCreatedAt(rows[j]) >= ByCreatedAt(rows[i]);
      }
    }
  }

  /**
   * A user who first chose Mexican and later Italian: the profile built from
   * the stored records keeps Mexican, while the summary phrase says Italian.
   */
  lemma ProfileAndSummaryDisagree()
    ensures var rows := GetUserPreferences([Preference(1, "u", "cuisine_preference", "Mexican", 10),
                                            Preference(2, "u", "cuisine_preference", "Italian", 20)], "u");
            ProfileOf(rows).cuisinePreference == Some("Mexican") &&
            FirstValueOf(rows, "cuisine_preference") == Some("Italian")
  {
    var older := Preference(1, "u", "cuisine_preference", "Mexican", 10);
    var newer := Preference(2, "u", "cuisine_preference", "Italian", 20);
    var table := [older, newer];
    assert Filter(table, OfUser("u")) == table;
    assert table[1..] == [newer];
    assert SortDesc([newer], ByCreatedAt) == [newer];
    assert Insert(older, [newer], ByCreatedAt) == [newer] + Insert(older, [], ByCreatedAt);
    assert SortDesc(table, ByCreatedAt) == [newer, older];
    var rows := GetUserPreferences(table, "u");
    assert rows == [newer, older];
    assert rows[..1] == [newer];
  }

  /** `preferences.filter(p => p.preference_type === t).map(p => p.preference_value)`. */
  function ValuesOf(prefs: seq<Preference>, t: string): seq<string> {
    if prefs == [] then []
    else (if prefs[0].preferenceType == t then [prefs[0].preferenceValue] else []) + ValuesOf(prefs[1..], t)
  }

  /** Index `i` holds the first record of type `t`. */
  ghost predicate IsFirstOfType(prefs: seq<Preference>, t: string, i: int) {
    0 <= i < |prefs| && prefs[i].preferenceType == t &&
    forall j :: 0 <= j < i ==> prefs[j].preferenceType != t
  }

  /** The value of the first record of type `t`, if any. */
  function FirstValueOf(prefs: seq<Preference>, t: string): Option<string> {
    if prefs == [] then None
    else if prefs[0].preferenceType == t then Some(prefs[0].preferenceValue)
    else FirstValueOf(prefs[1..], t)
  }

  lemma {:induction false} FirstValueSpec(prefs: seq<Preference>, t: string)
    ensures FirstValueOf(prefs, t) == None <==> forall i :: 0 <= i < |prefs| ==> prefs[i].preferenceType != t
    ensures FirstValueOf(prefs, t).Some? ==>
      exists i :: IsFirstOfType(prefs, t, i) && FirstValueOf(prefs, t).value == prefs[i].preferenceValue
  {
    if prefs != [] {
      FirstValueSpec(prefs[1..], t);
      if prefs[0].preferenceType == t {
        assert IsFirstOfType(prefs, t, 0);
      } else if FirstValueOf(prefs, t).Some? {
        var i :| IsFirstOfType(prefs[1..], t, i) && FirstValueOf(prefs[1..], t).value == prefs[1..][i].preferenceValue;
        assert IsFirstOfType(prefs, t, i + 1);
      }
    }
  }

  /** The filtered values are non-empty exactly when a first record exists, and start with its value. */
  lemma {:induction false} ValuesOfHead(prefs: seq<Preference>, t: string)
    ensures ValuesOf(prefs, t) == [] <==> FirstValueOf(prefs, t) == None
    ensures ValuesOf(prefs, t) != [] ==> ValuesOf(prefs, t)[0] == FirstValueOf(prefs, t).value
  {
    if prefs != [] {
      ValuesOfHead(prefs[1..], t);
    }
  }

  /** JavaScript truthiness of an optional string field: present and not empty. */
  predicate Truthy(o: Option<string>) {
    o.Some? && o.value != ""
  }

  /** `summarizePreferences`: the phrase the welcome-back message uses for what is remembered. */
  function SummarizePreferences(preferences: seq<Preference>): (summary: string)
    ensures summary != ""
    ensures var c, b := FirstValueOf(preferences, "cuisine_preference"), FirstValueOf(preferences, "budget_range");
      if Truthy(c) then
        summary == (if b.Some? then c.value + " food in the " + b.value + " range" else c.value)
      else
        summary == (if b.Some? then b.value + " dining" else "great food")
  {
    var cuisines := ValuesOf(preferences, "cuisine_preference");
    var budget := ValuesOf(preferences, "budget_range");
    ValuesOfHead(preferences, "cuisine_preference");
    ValuesOfHead(preferences, "budget_range");
    var summary := if |cuisines| > 0 then cuisines[0] else "";
    var summary := if |budget| > 0 then
        (if summary != "" then summary + " food in the " + budget[0] + " range" else budget[0] + " dining")
      else summary;
    if summary != "" then summary else "great food"
  }
}
