/**
 * The pure checks and conversions of the setup dialog and of start-up: normalising the
 * screen name the user types, recognising a Discord webhook URL, turning an exported
 * cookie list into the name-to-value dictionary the scraping client wants, and reading
 * the comma-separated list of user ids allowed to invite the bot.
 */
module Setup {
  import opened Types
  import opened Text

  predicate OnlyAtSigns(s: string) {
    forall i :: 0 <= i < |s| ==> s[i] == '@'
  }

  /** `s` is some `@` signs followed by `name`. */
  predicate AtSignsThen(s: string, name: string) {
    |name| <= |s| && OnlyAtSigns(s[..|s| - |name|]) && s[|s| - |name|..] == name
  }

  /**
   * The screen name typed by the user with surrounding whitespace and then every leading
   * `@` removed; an empty result is rejected.
   */
  function NormalizeScreenName(content: string): (r: Option<string>)
    ensures r.None? <==> OnlyAtSigns(Strip(content))
    ensures r.Some? ==> r.value != [] && r.value[0] != '@' && AtSignsThen(Strip(content), r.value)
  {
    DropLeadingAtSigns(Strip(content))
  }

  function DropLeadingAtSigns(s: string): (r: Option<string>)
    ensures r.None? <==> OnlyAtSigns(s)
    ensures r.Some? ==> r.value != [] && r.value[0] != '@' && AtSignsThen(s, r.value)
  {
    var name := TrimStart(s, {'@'});
    if name == [] then None
    else
      assert s[|s| - |name|] == name[0];
      Some(name)
  }

  const WebhookPrefix := "https://discord.com/api/webhooks/"
  const LegacyWebhookPrefix := "https://discordapp.com/api/webhooks/"

  /** The URL check of the webhook step: one of the two Discord webhook prefixes. */
  predicate IsWebhookUrl(content: string) {
    WebhookPrefix <= content || LegacyWebhookPrefix <= content
  }

  /**
   * A URL is accepted exactly when it is one of the two prefixes followed by some rest,
   * and every rest after either prefix is accepted.
   */
  lemma WebhookUrlShape(content: string, rest: string)
    ensures IsWebhookUrl(WebhookPrefix + rest) && IsWebhookUrl(LegacyWebhookPrefix + rest)
    ensures IsWebhookUrl(content) <==>
      || (|WebhookPrefix| <= |content| && content == WebhookPrefix + content[|WebhookPrefix|..])
      || (|LegacyWebhookPrefix| <= |content| && content == LegacyWebhookPrefix + content[|LegacyWebhookPrefix|..])
  {
    assert (WebhookPrefix + rest)[..|WebhookPrefix|] == WebhookPrefix;
    assert (LegacyWebhookPrefix + rest)[..|LegacyWebhookPrefix|] == LegacyWebhookPrefix;
  }

  /** One object of an exported cookie list: its `name` and `value` keys, each present or not. */
  datatype CookieEntry = CookieEntry(name: Option<string>, value: Option<string>)

  predicate Usable(e: CookieEntry) {
    e.name.Some? && e.value.Some?
  }

  /** No entry after `i` that has both keys carries the same name. */
  predicate LastWithName(items: seq<CookieEntry>, i: nat)
    requires i < |items|
  {
    forall j :: i < j < |items| && Usable(items[j]) ==> items[j].name != items[i].name
  }

  /**
   * The dictionary comprehension over the exported list: an entry with both keys maps its
   * name to its value, entries missing either key are ignored, and a later entry with
   * the same name overrides an earlier one.
   */
  function CookieDict(items: seq<CookieEntry>): (d: map<string, string>)
    ensures forall k :: k in d <==> exists i :: 0 <= i < |items| && Usable(items[i]) && items[i].name.value == k
    ensures forall i :: 0 <= i < |items| && Usable(items[i]) && LastWithName(items, i) ==>
              items[i].name.value in d && d[items[i].name.value] == items[i].value.value
    decreases |items|
  {
    if items == [] then map[]
    else
      var front := items[..|items| - 1];
      var d := CookieDict(front);
      var last := items[|items| - 1];
      assert forall i :: 0 <= i < |front| ==> front[i] == items[i];
      if Usable(last) then d[last.name.value := last.value.value] else d
  }

  /** The setup step gives up when the dictionary is empty, that is, when no entry has both keys. */
  function CookiesFromExport(items: seq<CookieEntry>): (r: Option<map<string, string>>)
    ensures r.None? <==> forall i :: 0 <= i < |items| ==> !Usable(items[i])
    ensures r.Some? ==> r.value == CookieDict(items) && |r.value| > 0
  {
    var d := CookieDict(items);
    CookieDictEmpty(items);
    if d == map[] then None else Some(d)
  }

  lemma CookieDictEmpty(items: seq<CookieEntry>)
    ensures CookieDict(items) == map[] <==> forall i :: 0 <= i < |items| ==> !Usable(items[i])
  {
    var d := CookieDict(items);
    if exists i :: 0 <= i < |items| && Usable(items[i]) {
      var i :| 0 <= i < |items| && Usable(items[i]);
      assert items[i].name.value in d;
    } else {
      assert forall k :: k !in d;
      assert d == map[];
    }
  }

  /** One part of the allow-list: its value when it is a digit string once whitespace is stripped. */
  function PartValue(part: string): Option<int> {
    var t := Strip(part);
    if IsDigits(t) then Some(DigitsValue(t) as int) else None
  }

  /**
   * The invite allow-list read from the environment: the comma-separated parts that are
   * digit strings once whitespace is stripped, read as numbers.
   */
  function ParseAllowedInviterIds(raw: string): (ids: set<int>)
    ensures forall n :: n in ids ==> n >= 0
    ensures raw == "" ==> ids == {}
  {
    if raw == "" then {}
    else set p | p in Split(raw, ',') && PartValue(p).Some? :: PartValue(p).value
  }

  /** The decimal renderings of a list of ids. */
  function Rendered(ids: seq<nat>): (parts: seq<string>)
    ensures |parts| == |ids|
    ensures forall i :: 0 <= i < |ids| ==> parts[i] == NatToString(ids[i])
  {
    seq(|ids|, i requires 0 <= i < |ids| => NatToString(ids[i]))
  }

  lemma PartValueOfRendered(n: nat)
    ensures ',' !in NatToString(n)
    ensures PartValue(NatToString(n)) == Some(n as int)
  {
    NotInDigits(NatToString(n), ',');
    PartValueOfDigits(NatToString(n));
  }

  lemma PartValueOfDigits(s: string)
    requires IsDigits(s)
    ensures PartValue(s) == Some(DigitsValue(s) as int)
  {
    StripDigits(s);
  }

  lemma JoinNonEmpty(parts: seq<string>, sep: char)
    requires |parts| > 0 && parts[0] != ""
    ensures Join(parts, sep) != ""
  {
    if |parts| > 1 {
      assert Join(parts, sep) == parts[0] + [sep] + Join(parts[1..], sep);
    }
  }

  lemma ValuesOfParts(parts: seq<string>, ids: seq<nat>, f: string -> Option<int>)
    requires |parts| == |ids|
    requires forall i :: 0 <= i < |parts| ==> f(parts[i]) == Some(ids[i] as int)
    ensures (set p | p in parts && f(p).Some? :: f(p).value) == set i | i in ids :: i as int
  {
    var got := set p | p in parts && f(p).Some? :: f(p).value;
    var want := set i | i in ids :: i as int;
    forall n | n in got ensures n in want {
      var p :| p in parts && f(p).Some? && f(p).value == n;
      var k :| 0 <= k < |parts| && parts[k] == p;
      assert ids[k] in ids;
    }
    forall n | n in want ensures n in got {
      var k :| 0 <= k < |ids| && ids[k] as int == n;
      assert parts[k] in parts;
    }
  }

  /** Writing ids out comma-separated and reading the list back yields exactly those ids. */
  lemma ParseRenderedIds(ids: seq<nat>)
    ensures ParseAllowedInviterIds(Join(Rendered(ids), ',')) == set i | i in ids :: i as int
  {
    if ids == [] {
      assert Rendered(ids) == [];
      return;
    }
    var parts := Rendered(ids);
    var raw := Join(parts, ',');
    forall i | 0 <= i < |parts| ensures ',' !in parts[i] && PartValue(parts[i]) == Some(ids[i] as int) {
      PartValueOfRendered(ids[i]);
    }
    SplitJoin(parts, ',');
    JoinNonEmpty(parts, ',');
    ValuesOfParts(parts, ids, PartValue);
  }
}
