/**
 * Mapping a provider condition code to an icon key. The table `weatherCodes`
 * maps icon keys to lists of condition codes; it is an input here, given as
 * its keys in `Object.keys` order, each with its code list. The lookup is the
 * first key, in that order, whose list holds the code; when none does, or the
 * key found is the empty (falsy) string, the key is "default".
 */
module Icons {
  import opened Wrappers

  type IconTable = seq<(string, seq<int>)>

  const DEFAULT_ICON := "default"

  /** `weatherCodes[icon].includes(code)`: an absent code is in no list. */
  predicate Matches(entry: (string, seq<int>), code: Option<int>) {
    code.Some? && code.value in entry.1
  }

  /** Entry `i` matches and no entry before it does. */
  predicate IsFirstMatch(table: IconTable, code: Option<int>, i: int) {
    0 <= i < |table| && Matches(table[i], code) &&
    forall j :: 0 <= j < i ==> !Matches(table[j], code)
  }

  /** The index `find` stops at: the first matching entry, or `|table|`. */
  function FirstMatchIndex(table: IconTable, code: Option<int>): (i: nat)
    ensures i <= |table|
    ensures i < |table| ==> IsFirstMatch(table, code, i)
    ensures i == |table| ==> forall j :: 0 <= j < |table| ==> !Matches(table[j], code)
  {
    if table == [] then 0
    else if Matches(table[0], code) then 0
    else 1 + FirstMatchIndex(table[1..], code)
  }

  /** `Object.keys(weatherCodes).find(icon => weatherCodes[icon].includes(code))`. */
  function FindIcon(table: IconTable, code: Option<int>): (found: Option<string>)
    ensures found.None? <==> forall i :: 0 <= i < |table| ==> !Matches(table[i], code)
    ensures forall i :: IsFirstMatch(table, code, i) ==> found == Some(table[i].0)
    ensures found.Some? ==> exists i :: IsFirstMatch(table, code, i) && table[i].0 == found.value
  {
    var i := FirstMatchIndex(table, code);
    if i < |table| then Some(table[i].0) else None
  }

  /** `found || "default"`: no match, or a match on the empty key, gives "default". */
  function OrDefault(found: Option<string>): (key: string)
    ensures key == DEFAULT_ICON || (found == Some(key) && key != "")
    ensures found.Some? && found.value != "" ==> key == found.value
  {
    if found.Some? && found.value != "" then found.value else DEFAULT_ICON
  }

  /** The icon key shown for a condition code. */
  function ResolveIcon(table: IconTable, code: Option<int>): (key: string)
    ensures key == DEFAULT_ICON || exists i :: IsFirstMatch(table, code, i) && table[i].0 == key
    ensures forall i :: IsFirstMatch(table, code, i) && table[i].0 != "" ==> key == table[i].0
    ensures (forall i :: 0 <= i < |table| ==> !Matches(table[i], code)) ==> key == DEFAULT_ICON
    ensures forall i :: IsFirstMatch(table, code, i) && table[i].0 == "" ==> key == DEFAULT_ICON
    ensures key != ""
  {
    OrDefault(FindIcon(table, code))
  }

  /** The key shown is always one of the table's keys or "default". */
  lemma ResolveIconIsKeyOrDefault(table: IconTable, code: Option<int>)
    ensures var key := ResolveIcon(table, code);
      key == DEFAULT_ICON || exists i :: 0 <= i < |table| && table[i].0 == key
  {
  }

  /**
   * When a code is listed under exactly one key, that key is the one shown
   * (unless it is the empty key); where codes collide the earlier key wins.
   */
  lemma UniqueCodeResolves(table: IconTable, code: int, i: nat)
    requires i < |table| && code in table[i].1 && table[i].0 != ""
    requires forall j :: 0 <= j < |table| && j != i ==> code !in table[j].1
    ensures ResolveIcon(table, Some(code)) == table[i].0
  {
    assert IsFirstMatch(table, Some(code), i);
  }

  /** A first match on the empty key shows "default", as `"" || "default"` does. */
  lemma EmptyKeyIsDefault()
    ensures ResolveIcon([("", [1]), ("rain", [1])], Some(1)) == DEFAULT_ICON
  {
  }

  /** A lookup without a code shows "default". */
  lemma NoCodeIsDefault(table: IconTable)
    ensures ResolveIcon(table, None) == DEFAULT_ICON
  {
  }
}
