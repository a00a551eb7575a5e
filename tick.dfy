/**
 * The periodic tick's choice of whom to check: every settings file whose name ends in
 * `.json` is read as a user id (the part before the first dot, as `int()` reads it), the
 * settings stored under that id are loaded, and a check is launched for each user whose
 * tracking is on.  Names that do not read as an id are passed over.
 */
module Tick {
  import opened Types
  import opened Text
  import opened Store

  /**
   * `int(s)` for base-10 text: surrounding whitespace, then an optional sign, then at
   * least one digit; anything else is rejected.
   */
  function ParseInt(s: string): Option<int> {
    ParseSigned(Strip(s))
  }

  /** `int()` on text without surrounding whitespace: an optional sign, then digits. */
  function ParseSigned(t: string): Option<int> {
    if t != [] && (t[0] == '+' || t[0] == '-') then
      if IsDigits(t[1..]) then Some(if t[0] == '-' then -(DigitsValue(t[1..]) as int) else DigitsValue(t[1..]))
      else None
    else if IsDigits(t) then Some(DigitsValue(t))
    else None
  }

  /** `int()` reads back what `str()` writes for every integer. */
  lemma ParseIntRoundTrip(n: int)
    ensures ParseInt(IntToString(n)) == Some(n)
  {
    if n < 0 {
      ParseNegative(NatToString(-n));
    } else {
      ParseDigits(NatToString(n));
    }
  }

  /** A minus sign followed by digits, as `int()` reads it. */
  lemma ParseNegative(digits: string)
    requires IsDigits(digits)
    ensures ParseInt("-" + digits) == Some(-(DigitsValue(digits) as int))
  {
    NegativeStrip(digits);
    ParseSignedNegative(digits);
  }

  lemma ParseSignedNegative(digits: string)
    requires IsDigits(digits)
    ensures ParseSigned("-" + digits) == Some(-(DigitsValue(digits) as int))
  {
    var s := "-" + digits;
    assert s[1..] == digits;
  }

  /** A minus sign followed by digits has no surrounding whitespace to strip. */
  lemma NegativeStrip(digits: string)
    requires IsDigits(digits)
    ensures Strip("-" + digits) == "-" + digits
  {
    var s := "-" + digits;
    assert s[0] == '-' && s[|s| - 1] == digits[|digits| - 1];
    DigitNotSpace(digits[|digits| - 1]);
    StripUnpadded(s);
  }

  /** The user id a settings file name stands for, if it stands for one. */
  function FileUserId(name: string): (r: Option<UserId>)
    ensures r.Some? ==> EndsWith(name, ".json")
  {
    if EndsWith(name, ".json") then ParseInt(Split(name, '.')[0]) else None
  }

  /** A launch for a file: its name, read by `idOf`, gives an id whose stored settings have tracking on. */
  predicate LaunchesFor(name: string, files: map<UserId, Record>, idOf: string -> Option<UserId>) {
    var id := idOf(name);
    id.Some? && id.value in files && files[id.value].Enabled()
  }

  /**
   * The ids launched for the directory listing `names`, in listing order, stated on the
   * prefix, for file names read by `idOf`.
   */
  function LaunchesBy(names: seq<string>, files: map<UserId, Record>, idOf: string -> Option<UserId>): seq<UserId>
    decreases |names|
  {
    if names == [] then []
    else
      var last := names[|names| - 1];
      LaunchesBy(names[..|names| - 1], files, idOf) + (if LaunchesFor(last, files, idOf) then [idOf(last).value] else [])
  }

  /** The ids the tick launches for the directory listing `names`. */
  function Launches(names: seq<string>, files: map<UserId, Record>): seq<UserId> {
    LaunchesBy(names, files, FileUserId)
  }

  /** The selection loop of the tick; nothing is changed by it. */
  method SelectUsers(names: seq<string>, store: UserStore) returns (launched: seq<UserId>)
    ensures launched == Launches(names, store.files)
  {
    launched := [];
    for i := 0 to |names|
      invariant launched == Launches(names[..i], store.files)
    {
      assert names[..i + 1][..i] == names[..i];
      var name := names[i];
      if !EndsWith(name, ".json") {
        continue;
      }
      var id := ParseInt(Split(name, '.')[0]);
      if id.None? {
        // the file name is not an id
        continue;
      }
      var d := store.Load(id.value);
      if d != null && !d.ToRecord().IsEmpty() && d.enabled == Some(true) {
        launched := launched + [id.value];
      }
    }
    assert names[..|names|] == names;
  }

  /**
   * A user is launched exactly when some listed file name stands for their id and their
   * stored settings have tracking on; one launch per such file.
   */
  lemma LaunchedIff(names: seq<string>, files: map<UserId, Record>, uid: UserId)
    ensures uid in Launches(names, files) <==>
      uid in files && files[uid].Enabled() && exists i :: 0 <= i < |names| && FileUserId(names[i]) == Some(uid)
    ensures |Launches(names, files)| <= |names|
  {
    LaunchedByIff(names, files, FileUserId, uid);
  }

  lemma {:induction false} LaunchedByIff(names: seq<string>, files: map<UserId, Record>, idOf: string -> Option<UserId>, uid: UserId)
    ensures uid in LaunchesBy(names, files, idOf) <==>
      uid in files && files[uid].Enabled() && exists i :: 0 <= i < |names| && idOf(names[i]) == Some(uid)
    ensures |LaunchesBy(names, files, idOf)| <= |names|
    decreases |names|
  {
    if names != [] {
      var front := names[..|names| - 1];
      LaunchedByIff(front, files, idOf, uid);
      assert forall i :: 0 <= i < |front| ==> front[i] == names[i];
    }
  }

  /**
   * Two file names that read as the same id launch that user twice: `7.json` and
   * `7.old.json` both stand for user 7.
   */
  lemma DuplicateLaunch(r: Record)
    requires r.Enabled()
    ensures Launches(["7.json", "7.old.json"], map[7 := r]) == [7, 7]
  {
    FileSevenJson();
    FileSevenOldJson();
    LaunchesPair("7.json", "7.old.json", map[7 := r], FileUserId, 7);
  }

  lemma LaunchesPair(a: string, b: string, files: map<UserId, Record>, idOf: string -> Option<UserId>, uid: UserId)
    requires idOf(a) == Some(uid) && idOf(b) == Some(uid)
    requires uid in files && files[uid].Enabled()
    ensures LaunchesBy([a, b], files, idOf) == [uid, uid]
  {
    assert LaunchesFor(a, files, idOf) && LaunchesFor(b, files, idOf);
    assert [a][..0] == [];
    assert LaunchesBy([a], files, idOf) == [uid];
    assert [a, b][..1] == [a];
  }

  /** A digit string, as `int()` reads it. */
  lemma ParseDigits(digits: string)
    requires IsDigits(digits)
    ensures ParseInt(digits) == Some(DigitsValue(digits) as int)
  {
    ParseSignedDigits(digits);
    StripDigits(digits);
  }

  lemma ParseSignedDigits(digits: string)
    requires IsDigits(digits)
    ensures ParseSigned(digits) == Some(DigitsValue(digits) as int)
  {
    assert IsDigit(digits[0]);
  }

  /** A name `<digits>.<rest>` ending in `.json` stands for the id the digits spell. */
  lemma FileIdOfDigits(digits: string, rest: string)
    requires IsDigits(digits) && EndsWith(digits + ['.'] + rest, ".json")
    ensures FileUserId(digits + ['.'] + rest) == Some(DigitsValue(digits) as int)
  {
    NotInDigits(digits, '.');
    SplitAfterPart(digits, rest, '.');
    ParseDigits(digits);
  }

  /** The first file name of `DuplicateLaunch`. */
  lemma FileSevenJson()
    ensures FileUserId("7.json") == Some(7)
  {
    var seven := "7";
    assert DigitsValue(seven) == 7;
    assert seven + ['.'] + "json" == "7.json";
    FileIdOfDigits(seven, "json");
  }

  /** The second file name of `DuplicateLaunch`. */
  lemma FileSevenOldJson()
    ensures FileUserId("7.old.json") == Some(7)
  {
    var seven := "7";
    assert DigitsValue(seven) == 7;
    assert seven + ['.'] + "old.json" == "7.old.json";
    FileIdOfDigits(seven, "old.json");
  }
}
