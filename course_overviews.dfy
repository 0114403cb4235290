/**
 * The derived attributes of a cached course overview: fallbacks for display values,
 * HTML escaping of the display name, the certificate-eligibility rule, the lookup of
 * a user partition and the base 32 course identifier.
 *
 * Dates are seconds since the epoch (UTC); the current time is the parameter `now`.
 * The location is given by its fields (the memo in `location` keeps it fixed).
 */
module CourseOverviews {
  import opened Wrappers
  import opened Text
  import Base32

  type Date = int

  /**
   * `CourseFields.start.default`, the default start date of a course
   * (2030-01-01 00:00 UTC), defined in xmodule.course_module.
   */
  const DefaultStartDate: Date := 1893456000

  /** The usage key of the course block, mapped into the course. */
  datatype Location = Location(org: string, course: string, name: string, courseKey: seq<Base32.byte>)

  datatype UserPartition = UserPartition(id: int, name: string)

  datatype CourseOverview = CourseOverview(
    userPartitions: Option<seq<UserPartition>>,
    groupAccess: Option<map<int, seq<int>>>,
    start: Option<Date>,
    end: Option<Date>,
    advertisedStart: Option<string>,
    displayName: Option<string>,
    certificatesShowBeforeEnd: bool,
    certificatesDisplayBehavior: Option<string>,
    displayOrganization: Option<string>,
    displayCoursenumber: Option<string>,
    location: Location)

  datatype Exception = NoSuchUserPartitionError(message: string) | TypeError

  /** `merged_group_access`: the group access map, or an empty one when it is None or empty. */
  function MergedGroupAccess(c: CourseOverview): (r: map<int, seq<int>>)
    ensures c.groupAccess.Some? ==> r == c.groupAccess.value
    ensures c.groupAccess.None? ==> r == map[]
  {
    match c.groupAccess
    case Some(m) => if m != map[] then m else map[]
    case None => map[]
  }

  /**
   * `_get_user_partition`: the first partition with the given id, or
   * NoSuchUserPartitionError when none has it; iterating over a None list raises TypeError.
   */
  method GetUserPartition(c: CourseOverview, userPartitionId: int) returns (r: Result<UserPartition, Exception>)
    ensures c.userPartitions.None? <==> r == Failure(TypeError)
    ensures r.Success? ==>
              var parts := c.userPartitions.value;
              exists i :: 0 <= i < |parts| && parts[i] == r.value
                          && r.value.id == userPartitionId
                          && forall j :: 0 <= j < i ==> parts[j].id != userPartitionId
    ensures c.userPartitions.Some? ==>
              (r.Failure? <==> forall p :: p in c.userPartitions.value ==> p.id != userPartitionId)
    ensures c.userPartitions.Some? && r.Failure? ==>
              r.error == NoSuchUserPartitionError("could not find a UserPartition with ID [" + IntToString(userPartitionId) + "]")
  {
    if c.userPartitions.None? {
      return Failure(TypeError);
    }
    var parts := c.userPartitions.value;
    var i := 0;
    while i < |parts|
      invariant 0 <= i <= |parts|
      invariant forall j :: 0 <= j < i ==> parts[j].id != userPartitionId
    {
      if parts[i].id == userPartitionId {
        return Success(parts[i]);
      }
      i := i + 1;
    }
    return Failure(NoSuchUserPartitionError("could not find a UserPartition with ID [" + IntToString(userPartitionId) + "]"));
  }

  /** `name.replace('<', '&lt;').replace('>', '&gt;')`. */
  function EscapeAngleBrackets(s: string): string
  {
    Replace(Replace(s, '<', "&lt;"), '>', "&gt;")
  }

  /** The escaped text holds no angle bracket. */
  lemma EscapeRemovesBrackets(s: string)
    ensures '<' !in EscapeAngleBrackets(s) && '>' !in EscapeAngleBrackets(s)
  {
    var once := Replace(s, '<', "&lt;");
    ReplaceChars(s, '<', "&lt;", '<');
    ReplaceChars(once, '>', "&gt;", '<');
    ReplaceChars(once, '>', "&gt;", '>');
  }

  /** Text without angle brackets is left as it is. */
  lemma EscapeKeepsPlainText(s: string)
    requires '<' !in s && '>' !in s
    ensures EscapeAngleBrackets(s) == s
  {
    ReplaceAbsent(s, '<', "&lt;");
    ReplaceAbsent(s, '>', "&gt;");
  }

  /** Each bracket grows the text by three characters ("&lt;" or "&gt;" for one character). */
  lemma EscapeLength(s: string)
    ensures |EscapeAngleBrackets(s)| == |s| + 3 * (Occurrences(s, '<') + Occurrences(s, '>'))
  {
    var once := Replace(s, '<', "&lt;");
    ReplaceLength(s, '<', "&lt;");
    ReplaceLength(once, '>', "&gt;");
    OccurrencesAfterReplace(s, '<', "&lt;", '>');
  }

  lemma {:induction false} OccurrencesAfterReplace(s: string, c: char, t: string, d: char)
    requires d != c && d !in t
    ensures Occurrences(Replace(s, c, t), d) == Occurrences(s, d)
  {
    if s != [] {
      OccurrencesAfterReplace(s[1..], c, t, d);
      var head := if s[0] == c then t else [s[0]];
      OccurrencesAppend(head, Replace(s[1..], c, t), d);
      if s[0] == c {
        ReplaceAbsentCount(t, d);
      }
    }
  }

  lemma {:induction false} OccurrencesAppend(a: string, b: string, d: char)
    ensures Occurrences(a + b, d) == Occurrences(a, d) + Occurrences(b, d)
  {
    if a != [] {
      assert (a + b)[1..] == a[1..] + b;
      OccurrencesAppend(a[1..], b, d);
    } else {
      assert a + b == b;
    }
  }

  lemma {:induction false} ReplaceAbsentCount(t: string, d: char)
    requires d !in t
    ensures Occurrences(t, d) == 0
  {
    if t != [] {
      ReplaceAbsentCount(t[1..], d);
    }
  }

  /** `url_name`: the block name of the location. */
  function UrlName(c: CourseOverview): string
  {
    c.location.name
  }

  /**
   * `display_name_with_default`: the display name, or the URL name with underscores
   * turned into spaces when there is none; angle brackets escaped either way.
   */
  function DisplayNameWithDefault(c: CourseOverview): string
  {
    var name := if c.displayName.Some? then c.displayName.value else Replace(UrlName(c), '_', " ");
    EscapeAngleBrackets(name)
  }

  /**
   * The display name never holds an angle bracket; a bracket-free display name is used
   * as it is; without one, the URL name is used with its underscores turned into spaces.
   */
  lemma DisplayNameWithDefaultSpec(c: CourseOverview)
    ensures var r := DisplayNameWithDefault(c);
            && '<' !in r && '>' !in r
            && (c.displayName.Some? && '<' !in c.displayName.value && '>' !in c.displayName.value ==>
                  r == c.displayName.value)
            && (c.displayName.None? ==> '_' !in r)
            && (c.displayName.None? && '<' !in UrlName(c) && '>' !in UrlName(c) ==>
                  r == Replace(UrlName(c), '_', " "))
  {
    var name := if c.displayName.Some? then c.displayName.value else Replace(UrlName(c), '_', " ");
    EscapeRemovesBrackets(name);
    if c.displayName.None? {
      ReplaceChars(UrlName(c), '_', " ", '<');
      ReplaceChars(UrlName(c), '_', " ", '>');
      ReplaceChars(UrlName(c), '_', " ", '_');
      var once := Replace(name, '<', "&lt;");
      ReplaceChars(name, '<', "&lt;", '_');
      ReplaceChars(once, '>', "&gt;", '_');
    }
    if '<' !in name && '>' !in name {
      EscapeKeepsPlainText(name);
    }
  }

  /** `has_ended`: false without an end date, otherwise whether `now` is past it. */
  function HasEnded(c: CourseOverview, now: Date): (r: bool)
    ensures c.end.None? ==> !r
    ensures c.end.Some? ==> (r <==> now > c.end.value)
  {
    match c.end
    case None => false
    case Some(end) => now > end
  }

  /**
   * `has_started`: whether `now` is past the start date; comparing a date with a
   * missing start raises TypeError.
   */
  function HasStarted(c: CourseOverview, now: Date): (r: Result<bool, Exception>)
    ensures r.Failure? <==> c.start.None?
    ensures r.Success? ==> (r.value <==> now > c.start.value)
  {
    match c.start
    case None => Failure(TypeError)
    case Some(start) => Success(now > start)
  }

  /**
   * `may_certify`: a certificate link may be shown when the display behaviour is one of
   * the two early ones, when certificates are shown before the end, or once the course
   * has ended.
   */
  function MayCertify(c: CourseOverview, now: Date): (r: bool)
    ensures r <==> (|| c.certificatesDisplayBehavior == Some("early_with_info")
                    || c.certificatesDisplayBehavior == Some("early_no_info")
                    || c.certificatesShowBeforeEnd
                    || (c.end.Some? && now > c.end.value))
  {
    var showEarly := c.certificatesDisplayBehavior in {Some("early_with_info"), Some("early_no_info")}
                     || c.certificatesShowBeforeEnd;
    showEarly || HasEnded(c, now)
  }

  /** Once a course may certify, it still may at any later time. */
  lemma MayCertifyMonotonic(c: CourseOverview, now: Date, later: Date)
    requires now <= later && MayCertify(c, now)
    ensures MayCertify(c, later)
  {
  }

  /** `start_date_is_still_default`: no advertised start and the start left at its default. */
  function StartDateIsStillDefault(c: CourseOverview): (r: bool)
    ensures r <==> c.advertisedStart.None? && c.start == Some(DefaultStartDate)
  {
    c.advertisedStart.None? && c.start == Some(DefaultStartDate)
  }

  /**
   * `end_datetime_text`: the empty string when there is no end date; otherwise the
   * localized rendering of the end date, which `formatted` stands for.
   */
  function EndDatetimeText(c: CourseOverview, formatted: Date -> string): (r: string)
    ensures c.end.None? ==> r == ""
    ensures c.end.Some? ==> r == formatted(c.end.value)
  {
    match c.end
    case None => ""
    case Some(end) => formatted(end)
  }

  /** The value of `display or fallback` for a display string that may be None or empty. */
  function WithDefault(display: Option<string>, fallback: string): (r: string)
    ensures display.Some? && display.value != "" ==> r == display.value
    ensures display.None? || display.value == "" ==> r == fallback
    ensures r != "" <==> (display.Some? && display.value != "") || fallback != ""
  {
    if display.Some? && display.value != "" then display.value else fallback
  }

  /** `display_number_with_default`: the display course number if set, otherwise the location's course. */
  function DisplayNumberWithDefault(c: CourseOverview): (r: string)
    ensures c.displayCoursenumber.Some? && c.displayCoursenumber.value != "" ==> r == c.displayCoursenumber.value
    ensures c.displayCoursenumber.None? || c.displayCoursenumber.value == "" ==> r == c.location.course
  {
    WithDefault(c.displayCoursenumber, c.location.course)
  }

  /** `display_org_with_default`: the display organization if set, otherwise the location's org. */
  function DisplayOrgWithDefault(c: CourseOverview): (r: string)
    ensures c.displayOrganization.Some? && c.displayOrganization.value != "" ==> r == c.displayOrganization.value
    ensures c.displayOrganization.None? || c.displayOrganization.value == "" ==> r == c.location.org
  {
    WithDefault(c.displayOrganization, c.location.org)
  }

  /**
   * `clean_id(padding_char)`: "course_" followed by the base 32 encoding of the course
   * key, with each padding "=" replaced by `paddingChar`.
   */
  function CleanId(c: CourseOverview, paddingChar: string := "="): (r: string)
    ensures |r| >= 7 && r[..7] == "course_"
    ensures r[7..] == Replace(Base32.Encode(c.location.courseKey), Base32.Pad, paddingChar)
    ensures |paddingChar| == 1 ==> |r| == 7 + 8 * Base32.Quanta(|c.location.courseKey|)
  {
    var encoded := Base32.Encode(c.location.courseKey);
    ReplaceKeepsLength(encoded, Base32.Pad, paddingChar);
    "course_" + Replace(encoded, Base32.Pad, paddingChar)
  }

  /** With the default padding, the identifier decodes back to the course key. */
  lemma CleanIdDecodes(c: CourseOverview)
    ensures Base32.Decode(CleanId(c)[7..]) == Some(c.location.courseKey)
  {
    var encoded := Base32.Encode(c.location.courseKey);
    ReplaceIdentity(encoded, Base32.Pad);
    Base32.DecodeEncode(c.location.courseKey);
  }

  lemma {:induction false} ReplaceIdentity(s: string, c: char)
    ensures Replace(s, c, [c]) == s
  {
    if s != [] {
      ReplaceIdentity(s[1..], c);
    }
  }

  /**
   * Identifiers are unique: two courses with the same identifier have the same key,
   * for any one-character padding outside the base 32 alphabet.
   */
  lemma CleanIdUnique(a: CourseOverview, b: CourseOverview, pad: char)
    requires !Base32.IsSymbol(pad)
    requires CleanId(a, [pad]) == CleanId(b, [pad])
    ensures a.location.courseKey == b.location.courseKey
  {
    var ea := Base32.Encode(a.location.courseKey);
    var eb := Base32.Encode(b.location.courseKey);
    assert Replace(ea, Base32.Pad, [pad]) == CleanId(a, [pad])[7..] == CleanId(b, [pad])[7..] == Replace(eb, Base32.Pad, [pad]);
    if pad == Base32.Pad {
      ReplaceIdentity(ea, pad);
      ReplaceIdentity(eb, pad);
    } else {
      Base32.EncodeAlphabet(a.location.courseKey);
      Base32.EncodeAlphabet(b.location.courseKey);
      ReplaceUndo(ea, Base32.Pad, pad);
      ReplaceUndo(eb, Base32.Pad, pad);
    }
    Base32.EncodeInjective(a.location.courseKey, b.location.courseKey);
  }

  /** A padding character from the alphabet loses uniqueness: keys [0] and [0, 0, 0, 0, 0] collide under "A". */
  lemma CleanIdPaddingCollision(a: CourseOverview, b: CourseOverview)
    requires a.location.courseKey == [0] && b.location.courseKey == [0, 0, 0, 0, 0]
    ensures CleanId(a, "A") == CleanId(b, "A") == "course_AAAAAAAA"
  {
    CleanIdOneZeroByte(a);
    CleanIdFiveZeroBytes(b);
  }

  lemma CleanIdOneZeroByte(a: CourseOverview)
    requires a.location.courseKey == [0]
    ensures CleanId(a, "A") == "course_AAAAAAAA"
  {
    OneZeroReplaced(a.location.courseKey);
    CleanIdOf(a, "A", "AAAAAAAA");
  }

  lemma CleanIdFiveZeroBytes(b: CourseOverview)
    requires b.location.courseKey == [0, 0, 0, 0, 0]
    ensures CleanId(b, "A") == "course_AAAAAAAA"
  {
    FiveZerosReplaced(b.location.courseKey);
    CleanIdOf(b, "A", "AAAAAAAA");
  }

  /** Key [0]: "AA======" with its six padding symbols replaced by "A". */
  lemma OneZeroReplaced(key: seq<Base32.byte>)
    requires key == [0]
    ensures Replace(Base32.Encode(key), Base32.Pad, "A") == "AAAAAAAA"
  {
    EncodeOneZero(key);
    ReplaceAt(Base32.Encode(key), Base32.Pad, 'A');
  }

  /** Key [0, 0, 0, 0, 0]: "AAAAAAAA" holds no padding, so the replacement leaves it as is. */
  lemma FiveZerosReplaced(key: seq<Base32.byte>)
    requires key == [0, 0, 0, 0, 0]
    ensures Replace(Base32.Encode(key), Base32.Pad, "A") == "AAAAAAAA"
  {
    EncodeFiveZeros(key);
    ReplaceAbsent(Base32.Encode(key), Base32.Pad, "A");
  }

  /** The identifier is the prefix followed by the encoding with its padding replaced. */
  lemma CleanIdOf(c: CourseOverview, paddingChar: string, t: string)
    requires Replace(Base32.Encode(c.location.courseKey), Base32.Pad, paddingChar) == t
    ensures CleanId(c, paddingChar) == "course_" + t
  {
    var r := CleanId(c, paddingChar);
    assert r == r[..7] + r[7..];
  }

  /** The one-byte key [0] encodes as two "A" and six padding symbols. */
  lemma EncodeOneZero(key: seq<Base32.byte>)
    requires key == [0]
    ensures Base32.Encode(key) == "AA======"
  {
    var z := key + Base32.Zeros(4);
    SymbolsOfZeros(z);
    assert Base32.Encode(key) == Base32.Symbols(Base32.Split(z))[..2] + "======";
  }

  /** The five-byte key [0, 0, 0, 0, 0] encodes as eight "A". */
  lemma EncodeFiveZeros(key: seq<Base32.byte>)
    requires key == [0, 0, 0, 0, 0]
    ensures Base32.Encode(key) == "AAAAAAAA"
  {
    assert key + Base32.Zeros(0) == key;
    SymbolsOfZeros(key);
  }

  /** A quantum of zero bytes is eight zero groups, the symbol "A" eight times. */
  lemma SymbolsOfZeros(z: seq<Base32.byte>)
    requires |z| == 5 && z[0] == z[1] == z[2] == z[3] == z[4] == 0
    ensures Base32.Symbols(Base32.Split(z)) == "AAAAAAAA"
  {
    SplitZeros(z);
    SymbolsOfZeroGroups();
  }

  lemma SplitZeros(z: seq<Base32.byte>)
    requires |z| == 5 && z[0] == z[1] == z[2] == z[3] == z[4] == 0
    ensures Base32.Split(z) == [0, 0, 0, 0, 0, 0, 0, 0]
  {
    assert Base32.Split(z) == [Base32.Group0(0), Base32.Group1(0, 0), Base32.Group2(0), Base32.Group3(0, 0),
                               Base32.Group4(0, 0), Base32.Group5(0), Base32.Group6(0, 0), Base32.Group7(0)];
    ZeroGroup0(); ZeroGroup1(); ZeroGroup2(); ZeroGroup3();
    ZeroGroup4(); ZeroGroup5(); ZeroGroup6(); ZeroGroup7();
  }

  lemma SymbolsOfZeroGroups()
    ensures Base32.Symbols([0, 0, 0, 0, 0, 0, 0, 0]) == "AAAAAAAA"
  {
  }

  // Each group of a zero quantum is 0, one lemma per group to keep every arithmetic proof small.
  lemma ZeroGroup0() ensures Base32.Group0(0) == 0 {}
  lemma ZeroGroup1() ensures Base32.Group1(0, 0) == 0 {}
  lemma ZeroGroup2() ensures Base32.Group2(0) == 0 {}
  lemma ZeroGroup3() ensures Base32.Group3(0, 0) == 0 {}
  lemma ZeroGroup4() ensures Base32.Group4(0, 0) == 0 {}
  lemma ZeroGroup5() ensures Base32.Group5(0) == 0 {}
  lemma ZeroGroup6() ensures Base32.Group6(0, 0) == 0 {}
  lemma ZeroGroup7() ensures Base32.Group7(0) == 0 {}
}
