// The configuration helpers the loader hands to every plugin
// (PLUGIN_GET_CONFIG, PLUGIN_GET_CONFIG_INT, PLUGIN_GET_CONFIG_BOOL).
module PluginConfig {
  import opened Wrappers
  import opened CText
  import opened CdcTypes

  /** No entry before index n has the given key. */
  predicate AbsentBefore(entries: seq<ConfigEntry>, key: string, n: nat)
    requires n <= |entries|
  {
    forall j :: 0 <= j < n ==> entries[j].key != key
  }

  /**
   * plugin_get_config: the value of the FIRST entry whose key equals `key`,
   * or None when no entry has that key.
   */
  function GetConfig(entries: seq<ConfigEntry>, key: string): (r: Option<string>)
    ensures r.None? <==> AbsentBefore(entries, key, |entries|)
    ensures r.Some? ==> exists i :: 0 <= i < |entries| && entries[i].key == key &&
                          entries[i].value == r.value && AbsentBefore(entries, key, i)
  {
    if entries == [] then None
    else if entries[0].key == key then Some(entries[0].value)
    else
      var r := GetConfig(entries[1..], key);
      ShiftWitness(entries, key, r);
      r
  }

  lemma ShiftWitness(entries: seq<ConfigEntry>, key: string, r: Option<string>)
    requires entries != [] && entries[0].key != key
    requires r.None? <==> AbsentBefore(entries[1..], key, |entries| - 1)
    requires r.Some? ==> exists i :: 0 <= i < |entries[1..]| && entries[1..][i].key == key &&
                           entries[1..][i].value == r.value && AbsentBefore(entries[1..], key, i)
    ensures r.None? <==> AbsentBefore(entries, key, |entries|)
    ensures r.Some? ==> exists i :: 0 <= i < |entries| && entries[i].key == key &&
                          entries[i].value == r.value && AbsentBefore(entries, key, i)
  {
    if r.Some? {
      var i :| 0 <= i < |entries[1..]| && entries[1..][i].key == key &&
               entries[1..][i].value == r.value && AbsentBefore(entries[1..], key, i);
      assert entries[i + 1].key == key && AbsentBefore(entries, key, i + 1);
    } else {
      assert forall j :: 1 <= j < |entries| ==> entries[j].key == entries[1..][j - 1].key;
    }
  }

  /** Prepending an entry with the key shadows every later one. */
  lemma FirstEntryWins(e: ConfigEntry, rest: seq<ConfigEntry>)
    ensures GetConfig([e] + rest, e.key) == Some(e.value)
  {
  }

  /** plugin_get_config_int: the default when the key is missing, else atoi. */
  function GetConfigInt(entries: seq<ConfigEntry>, key: string, default: int): (r: int)
    ensures AbsentBefore(entries, key, |entries|) ==> r == default
    ensures GetConfig(entries, key).Some? ==> r == Atoi(GetConfig(entries, key).value)
  {
    match GetConfig(entries, key)
    case None => default
    case Some(v) => Atoi(v)
  }

  /** The characters plugin_get_config_bool skips: space, tab, LF, CR. */
  predicate IsBoolBlank(c: char)
  {
    c == ' ' || c == '\t' || c == '\n' || c == '\r'
  }

  function TrimBoolBlanks(s: string): (r: string)
    ensures |r| <= |s| && r == s[|s| - |r|..]
    ensures r == [] || !IsBoolBlank(r[0])
  {
    if s != [] && IsBoolBlank(s[0]) then TrimBoolBlanks(s[1..]) else s
  }

  predicate IsTrueText(t: string)
  {
    t == "1" || EqualsIgnoreCase(t, "true") || EqualsIgnoreCase(t, "yes") || EqualsIgnoreCase(t, "on")
  }

  predicate IsFalseText(t: string)
  {
    t == "0" || EqualsIgnoreCase(t, "false") || EqualsIgnoreCase(t, "no") || EqualsIgnoreCase(t, "off")
  }

  /** The two word lists are disjoint, so the order of the tests does not matter. */
  lemma TrueFalseDisjoint(t: string)
    ensures !(IsTrueText(t) && IsFalseText(t))
  {
    if IsTrueText(t) && |t| == 2 {
      assert Lower(t[0]) == 'o';
      assert Lower(t[0]) != Lower("no"[0]);
    } else if IsTrueText(t) && |t| == 3 {
      assert Lower(t[0]) == 'y';
      assert Lower(t[0]) != Lower("off"[0]);
    }
  }

  /** The text-to-flag rule applied to a configured value. */
  function ParseBoolText(v: string, default: int): (r: int)
    ensures IsTrueText(TrimBoolBlanks(v)) ==> r == 1
    ensures IsFalseText(TrimBoolBlanks(v)) ==> r == 0
    ensures !IsTrueText(TrimBoolBlanks(v)) && !IsFalseText(TrimBoolBlanks(v)) ==> r == default
  {
    var t := TrimBoolBlanks(v);
    TrueFalseDisjoint(t);
    if t == [] then default
    else if t == "1" then 1
    else if t == "0" then 0
    else if EqualsIgnoreCase(t, "true") || EqualsIgnoreCase(t, "yes") || EqualsIgnoreCase(t, "on") then 1
    else if EqualsIgnoreCase(t, "false") || EqualsIgnoreCase(t, "no") || EqualsIgnoreCase(t, "off") then 0
    else default
  }

  /** plugin_get_config_bool. */
  function GetConfigBool(entries: seq<ConfigEntry>, key: string, default: int): (r: int)
    ensures AbsentBefore(entries, key, |entries|) ==> r == default
    ensures GetConfig(entries, key).Some? ==> r == ParseBoolText(GetConfig(entries, key).value, default)
  {
    match GetConfig(entries, key)
    case None => default
    case Some(v) => ParseBoolText(v, default)
  }

  lemma {:induction false} TrimBlankPrefix(ws: string, t: string)
    requires forall i :: 0 <= i < |ws| ==> IsBoolBlank(ws[i])
    requires t == [] || !IsBoolBlank(t[0])
    ensures TrimBoolBlanks(ws + t) == t
  {
    if ws != [] {
      assert (ws + t)[1..] == ws[1..] + t;
      TrimBlankPrefix(ws[1..], t);
    }
  }

  /**
   * Leading blanks never change the answer: any mix of spaces, tabs, CR and
   * LF in front of a recognised word still yields that word's flag.
   */
  lemma BlankPrefixIgnored(ws: string, t: string, default: int)
    requires forall i :: 0 <= i < |ws| ==> IsBoolBlank(ws[i])
    requires IsTrueText(t) || IsFalseText(t)
    ensures ParseBoolText(ws + t, default) == (if IsTrueText(t) then 1 else 0)
  {
    assert Lower(t[0]) != ' ' && Lower(t[0]) != '\t' && Lower(t[0]) != '\n' && Lower(t[0]) != '\r';
    TrimBlankPrefix(ws, t);
    TrueFalseDisjoint(t);
  }

  /** Only the blanks in front are skipped: a trailing blank makes the value unrecognised. */
  lemma TrailingBlankNotTrimmed(default: int)
    ensures ParseBoolText("yes ", default) == default
  {
    assert TrimBoolBlanks("yes ") == "yes ";
    assert !EqualsIgnoreCase("yes ", "yes");
    assert !EqualsIgnoreCase("yes ", "true") && !EqualsIgnoreCase("yes ", "false");
  }
}
