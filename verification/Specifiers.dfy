/** Stream specifiers: `stream_specifier_parse`, and the language it reads. */
module Specifiers {
  import opened Topology
  import opened Numbers

  datatype StreamList = All | StreamId | Program | GroupId | GroupIdx

  datatype MediaType = Unknown | Video | Audio | Subtitle | Data | Attachment

  datatype StreamSpecifier = StreamSpecifier(
    idx: int,                  // -1: none
    streamList: StreamList,
    listId: int,
    mediaType: MediaType,
    noApic: bool,
    usableOnly: bool,
    disposition: set<nat>,      // the bits that must be set
    metaKey: Option<string>,
    metaVal: Option<string>,
    remainder: Option<string>)

  const EMPTY: StreamSpecifier := StreamSpecifier(-1, All, 0, Unknown, false, false, {}, None, None, None)

  /** What the parser leaves to the library: `av_get_token`, with the number of characters it
      takes, and `av_opt_eval_flags` for the names of dispositions. */
  datatype Library = Library(token: string -> (string, nat), flags: string -> Option<set<nat>>) {
    function Token(s: string): (r: (string, nat))
      ensures r.1 <= |s|
    {
      var (t, n) := token(s);
      (t, if n <= |s| then n else |s|)
    }
  }

  predicate IsAlnum(c: char) {
    '0' <= c <= '9' || 'A' <= c <= 'Z' || 'a' <= c <= 'z'
  }

  predicate IsFlagChar(c: char) {
    IsAlnum(c) || c == '_' || c == '+'
  }

  function FlagChars(s: string, k: nat): (e: nat)
    requires k <= |s|
    ensures k <= e <= |s|
    decreases |s| - k
  {
    if k < |s| && IsFlagChar(s[k]) then FlagChars(s, k + 1) else k
  }

  predicate StartsId(s: string) {
    At(s, 0) == '#' || (At(s, 0) == 'i' && At(s, 1) == ':')
  }

  function AfterId(s: string): (r: string)
    requires StartsId(s)
    ensures |r| < |s|
  {
    if s[0] == 'i' then s[2..] else s[1..]
  }

  /** `-1` until an index is read, which ends the specifier: an ID and an index never meet. */
  predicate Sound(ss: StreamSpecifier) {
    && (ss.streamList.StreamId? ==> ss.idx == -1)
    && -0x8000_0000 <= ss.idx < 0x8000_0000
    && (ss.metaVal.Some? ==> ss.metaKey.Some?)
    && (ss.noApic ==> ss.mediaType.Video?)
  }

  predicate Open(ss: StreamSpecifier) {
    Sound(ss) && ss.idx == -1 && ss.streamList != StreamId && ss.metaKey.None? && !ss.usableOnly
  }

  // ----- one component

  datatype Step =
    | Fail
    | More(ss: StreamSpecifier, rest: string)
    | Stop(ss: StreamSpecifier, rest: string)

  function TypeOf(c: char): MediaType {
    match c
    case 'a' => Audio
    case 's' => Subtitle
    case 'd' => Data
    case 't' => Attachment
    case _ => Video
  }

  function Typed(ss: StreamSpecifier, c: char): StreamSpecifier {
    ss.(mediaType := TypeOf(c), noApic := ss.noApic || c == 'V')
  }

  predicate StartsType(s: string) {
    At(s, 0) in {'v', 'a', 's', 'd', 't', 'V'} && !IsAlnum(At(s, 1))
  }

  function ReadList(ss: StreamSpecifier, l: StreamList, s: string): (r: Step)
    ensures Open(ss) && r.More? ==> Sound(r.ss) && (l != StreamId ==> Open(r.ss))
    ensures !r.Stop? && (r.More? ==> |r.rest| <= |s|)
  {
    var (n, used) := Strtol(s);
    if ss.streamList != All || used == 0 then Fail else More(ss.(streamList := l, listId := n), s[used..])
  }

  function ReadGroup(ss: StreamSpecifier, s: string): (r: Step)
    ensures Open(ss) && r.More? ==> Open(r.ss)
    ensures !r.Stop? && (r.More? ==> |r.rest| <= |s|)
  {
    if StartsId(s) then ReadList(ss, GroupId, AfterId(s)) else ReadList(ss, GroupIdx, s)
  }

  function ReadDisposition(ss: StreamSpecifier, s: string, lib: Library): (r: Step)
    ensures Open(ss) && r.More? ==> Open(r.ss)
    ensures !r.Stop?
  {
    var n := FlagChars(s, 0);
    var d := lib.flags(s[..n]);
    if ss.disposition != {} || d.None? then Fail else More(ss.(disposition := d.value), s[n..])
  }

  function ReadMeta(ss: StreamSpecifier, s: string, lib: Library): (r: Step)
    ensures r.Stop? && (Open(ss) ==> Sound(r.ss))
  {
    var (key, n) := lib.Token(s);
    var rest := s[n..];
    if At(rest, 0) != ':' then Stop(ss.(metaKey := Some(key), metaVal := None), rest)
    else
      var (val, m) := lib.Token(rest[1..]);
      Stop(ss.(metaKey := Some(key), metaVal := Some(val)), rest[1..][m..])
  }

  /** The component at the head of a text that is not empty. */
  function Read(ss: StreamSpecifier, s: string, lib: Library): (r: Step)
    requires s != ""
    ensures r.More? ==> |r.rest| < |s|
    ensures Open(ss) ==> (r.More? ==> Open(r.ss)) && (r.Stop? ==> Sound(r.ss))
  {
    if '0' <= s[0] <= '9' then
      var (n, used) := Strtol(s);
      Stop(ss.(idx := ToInt(n)), s[used..])
    else if StartsType(s) then
      if ss.mediaType != Unknown then Fail else More(Typed(ss, s[0]), s[1..])
    else if s[0] == 'g' && At(s, 1) == ':' then
      ReadGroup(ss, s[2..])
    else if s[0] == 'p' && At(s, 1) == ':' then ReadList(ss, Program, s[2..])
    else if "disp:" <= s then ReadDisposition(ss, s[5..], lib)
    else if StartsId(s) then
      (match ReadList(ss, StreamId, AfterId(s)) case More(t, rest) => Stop(t, rest) case _ => Fail)
    else if s[0] == 'm' && At(s, 1) == ':' then ReadMeta(ss, s[2..], lib)
    else if s[0] == 'u' && At(s, 1) in {'\0', ':'} then Stop(ss.(usableOnly := true), s[1..])
    else Stop(ss, s)
  }

  function SkipColon(s: string): string {
    if At(s, 0) == ':' then s[1..] else s
  }

  /** Components up to the one that ends the specifier, and the text behind it. */
  function ReadAll(ss: StreamSpecifier, s: string, lib: Library): Option<(StreamSpecifier, string)>
    decreases |s|
  {
    if s == "" then Some((ss, ""))
    else
      match Read(ss, s, lib)
      case Fail => None
      case Stop(t, rest) => Some((t, rest))
      case More(t, rest) => ReadAll(t, SkipColon(rest), lib)
  }

  function Ended(r: Option<(StreamSpecifier, string)>, allowRemainder: bool): Option<StreamSpecifier> {
    if r.None? then None
    else if r.value.1 == "" then Some(r.value.0)
    else if !allowRemainder then None
    else Some(r.value.0.(remainder := Some(SkipColon(r.value.1))))
  }

  function Parsed(s: string, allowRemainder: bool, lib: Library): Option<StreamSpecifier> {
    Ended(ReadAll(EMPTY, s, lib), allowRemainder)
  }

  method ScanFlags(s: string) returns (n: nat)
    ensures n == FlagChars(s, 0)
  {
    n := 0;
    while n < |s| && IsFlagChar(s[n])
      invariant n <= |s| && FlagChars(s, 0) == FlagChars(s, n)
    {
      n := n + 1;
    }
  }

  /** One turn of the parser's loop, up to the colon. */
  method ParseComponent(ss: StreamSpecifier, text: string, lib: Library) returns (r: Step)
    requires text != ""
    ensures r == Read(ss, text, lib)
  {
    var spec, list := text, All;
    if '0' <= spec[0] <= '9' {
      var (n, used) := Strtol(spec);
      StrtolTakesDigits(spec);
      assert used > 0;
      return Stop(ss.(idx := ToInt(n)), spec[used..]);
    } else if spec[0] in {'v', 'a', 's', 'd', 't', 'V'} && !IsAlnum(At(spec, 1)) {
      if ss.mediaType != Unknown {
        return Fail;
      }
      return More(Typed(ss, spec[0]), spec[1..]);
    } else if spec[0] == 'g' && At(spec, 1) == ':' {
      spec, list := spec[2..], GroupIdx;
      if StartsId(spec) {
        spec, list := AfterId(spec), GroupId;
      }
    } else if spec[0] == 'p' && At(spec, 1) == ':' {
      spec, list := spec[2..], Program;
    } else if "disp:" <= spec {
      if ss.disposition != {} {
        return Fail;
      }
      spec := spec[5..];
      var n := ScanFlags(spec);
      var d := lib.flags(spec[..n]);
      return if d.None? then Fail else More(ss.(disposition := d.value), spec[n..]);
    } else if StartsId(spec) {
      spec, list := AfterId(spec), StreamId;
    } else if spec[0] == 'm' && At(spec, 1) == ':' {
      spec := spec[2..];
      var (key, n) := lib.Token(spec);
      spec := spec[n..];
      if At(spec, 0) != ':' {
        return Stop(ss.(metaKey := Some(key), metaVal := None), spec);
      }
      spec := spec[1..];
      var (val, m) := lib.Token(spec);
      return Stop(ss.(metaKey := Some(key), metaVal := Some(val)), spec[m..]);
    } else if spec[0] == 'u' && At(spec, 1) in {'\0', ':'} {
      return Stop(ss.(usableOnly := true), spec[1..]);
    } else {
      return Stop(ss, spec);
    }
    // a program, a group or a stream ID
    if ss.streamList != All {
      return Fail;
    }
    var (n, used) := Strtol(spec);
    if used == 0 {
      return Fail;
    }
    var t := ss.(streamList := list, listId := n);
    r := if list == StreamId then Stop(t, spec[used..]) else More(t, spec[used..]);
  }

  /** `stream_specifier_parse`; `None` stands for its `AVERROR(EINVAL)` and the library's errors. */
  method StreamSpecifierParse(text: string, allowRemainder: bool, lib: Library) returns (r: Option<StreamSpecifier>)
    ensures r == Parsed(text, allowRemainder, lib)
  {
    var ss := EMPTY;
    var spec := text;
    var ended := false;
    while spec != "" && !ended
      invariant ReadAll(EMPTY, text, lib) == if ended then Some((ss, spec)) else ReadAll(ss, spec, lib)
      decreases !ended, |spec|
    {
      var step := ParseComponent(ss, spec, lib);
      match step
      case Fail => return None;
      case Stop(t, rest) => ss, spec, ended := t, rest, true;
      case More(t, rest) =>
        ss, spec := t, rest;
        if At(spec, 0) == ':' {
          spec := spec[1..];
        }
    }
    if spec != "" {
      if !allowRemainder {
        return None;
      }
      if spec[0] == ':' {
        spec := spec[1..];
      }
      ss := ss.(remainder := Some(spec));
    }
    return Some(ss);
  }

  // ----- what parsed specifiers are like

  lemma {:induction false} ReadAllSound(ss: StreamSpecifier, s: string, lib: Library)
    requires Open(ss)
    ensures ReadAll(ss, s, lib).Some? ==> Sound(ReadAll(ss, s, lib).value.0)
    decreases |s|
  {
    if s != "" {
      var r := Read(ss, s, lib);
      if r.More? {
        ReadAllSound(r.ss, SkipColon(r.rest), lib);
      }
    }
  }

  /** Every parsed specifier is sound: in particular the assertion of `stream_specifier_match`
      that a stream ID comes without an index holds. */
  lemma ParsedIsSound(s: string, allowRemainder: bool, lib: Library)
    ensures Parsed(s, allowRemainder, lib).Some? ==> Sound(Parsed(s, allowRemainder, lib).value)
  {
    ReadAllSound(EMPTY, s, lib);
  }

  // ----- the language

  datatype Component =
    | Type(letter: char)
    | InGroup(index: nat)
    | InGroupId(id: nat, short: bool)
    | InProgram(id: nat)
    | Disp(names: string)
    | Index(n: nat)
    | Id(id: nat, short: bool)
    | Usable

  predicate WellFormed(c: Component) {
    match c
    case Type(l) => l in {'v', 'a', 's', 'd', 't', 'V'}
    case Disp(names) => forall i | 0 <= i < |names| :: NameChar(names[i])
    case _ => true
  }

  /** The characters of a list of flags. */
  predicate NameChar(c: char) {
    c == '_' || c == '+' || 'a' <= c <= 'z' || 'A' <= c <= 'Z' || '0' <= c <= '9'
  }

  function IdMark(short: bool): string {
    if short then "#" else "i:"
  }

  function Text(c: Component): (s: string)
    ensures s != ""
  {
    match c
    case Type(l) => [l]
    case InGroup(n) => "g:" + Decimal(n)
    case InGroupId(n, short) => "g:" + IdMark(short) + Decimal(n)
    case InProgram(n) => "p:" + Decimal(n)
    case Disp(names) => "disp:" + names
    case Index(n) => Decimal(n)
    case Id(n, short) => IdMark(short) + Decimal(n)
    case Usable => "u"
  }

  function Tail(cs: seq<Component>): string
    decreases |cs|, 1
  {
    if cs == [] then "" else ":" + Join(cs)
  }

  /** Components separated by colons. */
  function Join(cs: seq<Component>): string
    decreases |cs|, 0
  {
    if cs == [] then "" else Text(cs[0]) + Tail(cs[1..])
  }

  predicate EndsSpecifier(c: Component) {
    c.Index? || c.Id? || c.Usable?
  }

  /** What one component adds; `None` where it repeats what may be given only once. */
  function Meaning(ss: StreamSpecifier, c: Component, lib: Library): Option<StreamSpecifier> {
    match c
    case Type(l) => if ss.mediaType == Unknown then Some(Typed(ss, l)) else None
    case InGroup(n) => if ss.streamList == All then Some(ss.(streamList := GroupIdx, listId := Clamp(n))) else None
    case InGroupId(n, _) => if ss.streamList == All then Some(ss.(streamList := GroupId, listId := Clamp(n))) else None
    case InProgram(n) => if ss.streamList == All then Some(ss.(streamList := Program, listId := Clamp(n))) else None
    case Disp(names) =>
      var d := lib.flags(names);
      if ss.disposition == {} && d.Some? then Some(ss.(disposition := d.value)) else None
    case Index(n) => Some(ss.(idx := ToInt(Clamp(n))))
    case Id(n, _) => if ss.streamList == All then Some(ss.(streamList := StreamId, listId := Clamp(n))) else None
    case Usable => Some(ss.(usableOnly := true))
  }

  /** The components one after the other, up to the one that ends the specifier; what follows it
      is the remainder. */
  function Interpreted(ss: StreamSpecifier, cs: seq<Component>, lib: Library): Option<(StreamSpecifier, string)>
    decreases |cs|
  {
    if cs == [] then Some((ss, ""))
    else
      var t := Meaning(ss, cs[0], lib);
      if t.None? then None
      else if EndsSpecifier(cs[0]) then Some((t.value, Tail(cs[1..])))
      else Interpreted(t.value, cs[1..], lib)
  }

  /** What `Read` makes of a component's text in front of a colon, or at the end. */
  function Expected(ss: StreamSpecifier, c: Component, rest: string, lib: Library): Step {
    var t := Meaning(ss, c, lib);
    if t.None? then Fail else if EndsSpecifier(c) then Stop(t.value, rest) else More(t.value, rest)
  }

  predicate Separate(rest: string) {
    rest == "" || rest[0] == ':'
  }

  lemma ListReads(ss: StreamSpecifier, l: StreamList, n: nat, rest: string)
    requires Separate(rest)
    ensures ReadList(ss, l, Decimal(n) + rest) ==
      if ss.streamList != All then Fail else More(ss.(streamList := l, listId := Clamp(n)), rest)
  {
    StrtolOfDecimal(n, rest);
    assert (Decimal(n) + rest)[|Decimal(n)|..] == rest;
  }

  lemma {:induction false} FlagsRead(names: string, rest: string, k: nat)
    requires k <= |names| && forall i | 0 <= i < |names| :: NameChar(names[i])
    requires rest == "" || !NameChar(rest[0])
    ensures FlagChars(names + rest, k) == |names|
    decreases |names| - k
  {
    if k < |names| {
      FlagsRead(names, rest, k + 1);
    }
  }

  lemma Head(a: string, b: string)
    ensures |a + b| == |a| + |b| && (a + b)[|a|..] == b
    ensures forall i: nat | i < |a| :: At(a + b, i) == a[i]
  {
  }

  lemma MarkReads(short: bool, n: nat, rest: string)
    ensures var t := IdMark(short) + (Decimal(n) + rest);
      StartsId(t) && AfterId(t) == Decimal(n) + rest && At(t, 0) == IdMark(short)[0]
  {
    Head(IdMark(short), Decimal(n) + rest);
  }

  lemma GroupDispatch(ss: StreamSpecifier, t: string, lib: Library)
    ensures Read(ss, "g:" + t, lib) == ReadGroup(ss, t)
  {
    Head("g:", t);
  }

  lemma GroupReads(ss: StreamSpecifier, n: nat, rest: string, lib: Library)
    requires Separate(rest)
    ensures Read(ss, Text(InGroup(n)) + rest, lib) == Expected(ss, InGroup(n), rest, lib)
  {
    var t := Decimal(n) + rest;
    assert Text(InGroup(n)) + rest == "g:" + t;
    GroupDispatch(ss, t, lib);
    assert At(t, 0) == Decimal(n)[0];
    ListReads(ss, GroupIdx, n, rest);
  }

  lemma GroupIdExpected(ss: StreamSpecifier, id: nat, short: bool, rest: string, lib: Library)
    requires Separate(rest)
    ensures ReadGroup(ss, IdMark(short) + (Decimal(id) + rest)) == Expected(ss, InGroupId(id, short), rest, lib)
  {
    MarkReads(short, id, rest);
    ListReads(ss, GroupId, id, rest);
  }

  lemma GroupIdText(id: nat, short: bool, rest: string)
    ensures Text(InGroupId(id, short)) + rest == "g:" + (IdMark(short) + (Decimal(id) + rest))
  {
  }

  lemma GroupIdReads(ss: StreamSpecifier, id: nat, short: bool, rest: string, lib: Library)
    requires Separate(rest)
    ensures Read(ss, Text(InGroupId(id, short)) + rest, lib) == Expected(ss, InGroupId(id, short), rest, lib)
  {
    GroupIdText(id, short, rest);
    GroupIdExpected(ss, id, short, rest, lib);
    GroupDispatch(ss, IdMark(short) + (Decimal(id) + rest), lib);
  }

  lemma ProgramReads(ss: StreamSpecifier, n: nat, rest: string, lib: Library)
    requires Separate(rest)
    ensures Read(ss, Text(InProgram(n)) + rest, lib) == Expected(ss, InProgram(n), rest, lib)
  {
    var t := Decimal(n) + rest;
    assert Text(InProgram(n)) + rest == "p:" + t;
    Head("p:", t);
    ListReads(ss, Program, n, rest);
  }

  lemma IndexReads(ss: StreamSpecifier, n: nat, rest: string, lib: Library)
    requires Separate(rest)
    ensures Read(ss, Decimal(n) + rest, lib) == Stop(ss.(idx := ToInt(Clamp(n))), rest)
  {
    var s := Decimal(n) + rest;
    StrtolOfDecimal(n, rest);
    assert s[0] == Decimal(n)[0];
    assert s[|Decimal(n)|..] == rest;
  }

  /** A text that starts with an ID mark, and with nothing that comes before it in the parser. */
  lemma IdDispatch(ss: StreamSpecifier, t: string, lib: Library)
    requires StartsId(t)
    ensures Read(ss, t, lib) ==
      match ReadList(ss, StreamId, AfterId(t)) case More(u, rest) => Stop(u, rest) case _ => Fail
  {
  }

  lemma IdText(id: nat, short: bool, rest: string)
    ensures Text(Id(id, short)) + rest == IdMark(short) + (Decimal(id) + rest)
  {
  }

  lemma IdReads(ss: StreamSpecifier, id: nat, short: bool, rest: string, lib: Library)
    requires Separate(rest)
    ensures Read(ss, Text(Id(id, short)) + rest, lib) == Expected(ss, Id(id, short), rest, lib)
  {
    IdText(id, short, rest);
    MarkReads(short, id, rest);
    ListReads(ss, StreamId, id, rest);
    IdDispatch(ss, IdMark(short) + (Decimal(id) + rest), lib);
  }

  lemma DispReads(ss: StreamSpecifier, names: string, rest: string, lib: Library)
    requires WellFormed(Disp(names)) && Separate(rest)
    ensures Read(ss, Text(Disp(names)) + rest, lib) == Expected(ss, Disp(names), rest, lib)
  {
    assert Text(Disp(names)) + rest == "disp:" + (names + rest);
    Head("disp:", names + rest);
    FlagsRead(names, rest, 0);
    Head(names, rest);
    assert (names + rest)[..|names|] == names;
  }

  lemma ComponentReads(ss: StreamSpecifier, c: Component, rest: string, lib: Library)
    requires WellFormed(c) && Separate(rest)
    ensures Read(ss, Text(c) + rest, lib) == Expected(ss, c, rest, lib)
  {
    match c
    case Type(l) => assert ([l] + rest)[1..] == rest;
    case Disp(names) => DispReads(ss, names, rest, lib);
    case Index(n) => IndexReads(ss, n, rest, lib);
    case Id(id, short) => IdReads(ss, id, short, rest, lib);
    case Usable => assert ("u" + rest)[1..] == rest;
    case InGroup(n) => GroupReads(ss, n, rest, lib);
    case InGroupId(id, short) => GroupIdReads(ss, id, short, rest, lib);
    case InProgram(n) => ProgramReads(ss, n, rest, lib);
  }

  /** Round trip: the parser reads a text written as components and colons, in any order and
      number, as just those components. */
  lemma {:induction false} TextReads(ss: StreamSpecifier, cs: seq<Component>, lib: Library)
    requires forall c | c in cs :: WellFormed(c)
    ensures ReadAll(ss, Join(cs), lib) == Interpreted(ss, cs, lib)
    decreases |cs|
  {
    if cs != [] {
      var rest := Tail(cs[1..]);
      ComponentReads(ss, cs[0], rest, lib);
      var t := Meaning(ss, cs[0], lib);
      if t.Some? && !EndsSpecifier(cs[0]) {
        assert SkipColon(rest) == Join(cs[1..]);
        TextReads(t.value, cs[1..], lib);
      }
    }
  }

  predicate SameKind(a: Component, b: Component) {
    || (a.Type? && b.Type?) || (a.Disp? && b.Disp?)
    || ((a.InGroup? || a.InGroupId? || a.InProgram?) && (b.InGroup? || b.InGroupId? || b.InProgram?))
  }

  /** What a letter stands for. */
  predicate Denotes(letter: char, media: MediaType, noApic: bool) {
    || (letter == 'v' && media == Video && !noApic)
    || (letter == 'V' && media == Video && noApic)
    || (letter == 'a' && media == Audio && !noApic)
    || (letter == 's' && media == Subtitle && !noApic)
    || (letter == 'd' && media == Data && !noApic)
    || (letter == 't' && media == Attachment && !noApic)
  }

  lemma ComponentAlone(c: Component, lib: Library)
    requires WellFormed(c) && Meaning(EMPTY, c, lib).Some?
    ensures Parsed(Text(c), false, lib) == Meaning(EMPTY, c, lib)
  {
    TextReads(EMPTY, [c], lib);
    assert Join([c]) == Text(c) + "" == Text(c);
    assert [c][1..] == [];
  }

  /** A letter alone asks for its type, and "V" besides for no attached pictures; nothing else. */
  lemma LettersMean(letter: char, media: MediaType, noApic: bool, lib: Library)
    requires Denotes(letter, media, noApic)
    ensures Parsed([letter], false, lib) == Some(EMPTY.(mediaType := media, noApic := noApic))
  {
    ComponentAlone(Type(letter), lib);
  }

  /** The six letters one by one. */
  lemma EachLetterMeans(lib: Library)
    ensures Parsed("v", false, lib) == Some(EMPTY.(mediaType := Video))
    ensures Parsed("V", false, lib) == Some(EMPTY.(mediaType := Video, noApic := true))
    ensures Parsed("a", false, lib) == Some(EMPTY.(mediaType := Audio))
    ensures Parsed("s", false, lib) == Some(EMPTY.(mediaType := Subtitle))
    ensures Parsed("d", false, lib) == Some(EMPTY.(mediaType := Data))
    ensures Parsed("t", false, lib) == Some(EMPTY.(mediaType := Attachment))
  {
    LettersMean('v', Video, false, lib);
    LettersMean('V', Video, true, lib);
    LettersMean('a', Audio, false, lib);
    LettersMean('s', Subtitle, false, lib);
    LettersMean('d', Data, false, lib);
    LettersMean('t', Attachment, false, lib);
  }

  /** Metadata, for a key that the library reads up to the colon and a value it reads to the end. */
  lemma MetaMeans(key: string, val: string, lib: Library)
    requires lib.token(key + ":" + val) == lib.token(key) == (key, |key|) && lib.token(val) == (val, |val|)
    requires ':' !in key
    ensures Parsed("m:" + key + ":" + val, false, lib) == Some(EMPTY.(metaKey := Some(key), metaVal := Some(val)))
    ensures Parsed("m:" + key, false, lib) == Some(EMPTY.(metaKey := Some(key)))
  {
    var t := key + ":" + val;
    assert "m:" + key + ":" + val == "m:" + t;
    MetaDispatch(t, lib);
    MetaDispatch(key, lib);
    assert t[|key|..] == ":" + val && (":" + val)[1..] == val;
    assert key[|key|..] == "" && val[|val|..] == "";
  }

  lemma MetaDispatch(t: string, lib: Library)
    ensures Read(EMPTY, "m:" + t, lib) == ReadMeta(EMPTY, t, lib)
    ensures ReadAll(EMPTY, "m:" + t, lib) == Some((ReadMeta(EMPTY, t, lib).ss, ReadMeta(EMPTY, t, lib).rest))
  {
    Head("m:", t);
  }

  /** What follows the component that ends the specifier is handed back without its colon, or
      makes the whole text invalid; without such a text there is no remainder. */
  lemma RemainderIs(c: Component, rest: string, lib: Library)
    requires WellFormed(c) && EndsSpecifier(c)
    ensures Parsed(Text(c) + ":" + rest, false, lib) == None
    ensures var ss := Meaning(EMPTY, c, lib);
      && ss.Some? && ss.value.remainder == None
      && Parsed(Text(c) + ":" + rest, true, lib) == Some(ss.value.(remainder := Some(rest)))
      && Parsed(Text(c), true, lib) == Parsed(Text(c), false, lib) == ss
  {
    ComponentReads(EMPTY, c, ":" + rest, lib);
    assert Text(c) + ":" + rest == Text(c) + (":" + rest);
    assert (":" + rest)[1..] == rest;
    ComponentReads(EMPTY, c, "", lib);
    assert Text(c) + "" == Text(c);
  }

  function Both(ss: StreamSpecifier, a: Component, b: Component, lib: Library): Option<StreamSpecifier> {
    var t := Meaning(ss, a, lib);
    if t.None? then None else Meaning(t.value, b, lib)
  }

  lemma InterpretedPair(ss: StreamSpecifier, a: Component, b: Component, cs: seq<Component>, lib: Library)
    requires !EndsSpecifier(a) && !EndsSpecifier(b)
    ensures Interpreted(ss, [a, b] + cs, lib) ==
      if Both(ss, a, b, lib).None? then None else Interpreted(Both(ss, a, b, lib).value, cs, lib)
  {
    assert ([a, b] + cs)[1..] == [b] + cs;
    assert ([b] + cs)[1..] == cs;
  }

  lemma InterpretedEnd(ss: StreamSpecifier, c: Component, lib: Library)
    requires EndsSpecifier(c) && Meaning(ss, c, lib).Some?
    ensures Interpreted(ss, [c], lib) == Some((Meaning(ss, c, lib).value, ""))
  {
    assert [c][1..] == [];
  }

  lemma TypeCommutes(ss: StreamSpecifier, a: Component, b: Component, lib: Library)
    requires a.Type? && !b.Type? && !EndsSpecifier(b)
    ensures Both(ss, a, b, lib) == Both(ss, b, a, lib)
  {
    match b
    case Disp(names) =>
    case _ =>
  }

  lemma DispCommutes(ss: StreamSpecifier, a: Component, b: Component, lib: Library)
    requires a.Disp? && (b.InGroup? || b.InGroupId? || b.InProgram?)
    ensures Both(ss, a, b, lib) == Both(ss, b, a, lib)
  {
  }

  /** The order of components of different kinds does not matter, before the one that ends the
      specifier. */
  lemma OrderDoesNotMatter(ss: StreamSpecifier, a: Component, b: Component, cs: seq<Component>, lib: Library)
    requires !EndsSpecifier(a) && !EndsSpecifier(b) && !SameKind(a, b)
    ensures Interpreted(ss, [a, b] + cs, lib) == Interpreted(ss, [b, a] + cs, lib)
  {
    if a.Type? {
      TypeCommutes(ss, a, b, lib);
    } else if b.Type? {
      TypeCommutes(ss, b, a, lib);
    } else if a.Disp? {
      DispCommutes(ss, a, b, lib);
    } else {
      DispCommutes(ss, b, a, lib);
    }
    InterpretedPair(ss, a, b, cs, lib);
    InterpretedPair(ss, b, a, cs, lib);
  }

  lemma IndexAlone(n: nat, lib: Library)
    ensures Parsed(Decimal(n), false, lib) == Some(EMPTY.(idx := ToInt(Clamp(n))))
  {
    assert Decimal(n) + "" == Decimal(n);
    IndexReads(EMPTY, n, "", lib);
  }

  /** The index is a `long` stored in an `int`: it comes out as written exactly if it is below
      2^31, and is negative, which is to say ignored, exactly if bit 31 of the saturated value is
      set. */
  lemma IndexAsWritten(n: nat, lib: Library)
    ensures var r := Parsed(Decimal(n), false, lib);
      && r == Some(EMPTY.(idx := ToInt(Clamp(n))))
      && (r.value.idx == n <==> n < 0x8000_0000)
      && (r.value.idx < 0 <==> n >= LONG_MAX || n % 0x1_0000_0000 >= 0x8000_0000)
      && (n == 0xFFFF_FFFF || n >= LONG_MAX ==> r.value == EMPTY)
  {
    IndexAlone(n, lib);
    ToIntKeeps(Clamp(n));
    ToIntOfMax();
  }
}
