/** Which streams of a file a specifier picks: `stream_specifier_match`. */
module Matching {
  import opened Numbers
  import opened Topology
  import opened Specifiers

  /** The number of the disposition bit of cover pictures. */
  const ATTACHED_PIC: nat := 10

  /** What the matcher looks at in a stream. `tag` is the dictionary lookup of its metadata;
      `parameters` says that a decoder could use it: sample rate, channels and format known, or
      width, height and format. */
  datatype Stream = Stream(
    id: int,
    mediaType: MediaType,
    disposition: set<nat>,     // the bits that are set
    tag: string -> Option<string>,
    parameters: bool)

  /** A program or a group: an ID and the indices of its streams. */
  datatype Listing = Listing(id: int, streams: seq<nat>)

  datatype Input = Input(streams: seq<Stream>, programs: seq<Listing>, groups: seq<Listing>)

  predicate ValidListing(input: Input, l: Listing) {
    forall k | 0 <= k < |l.streams| :: l.streams[k] < |input.streams|
  }

  predicate ValidInput(input: Input) {
    && (forall p | 0 <= p < |input.programs| :: ValidListing(input, input.programs[p]))
    && (forall g | 0 <= g < |input.groups| :: ValidListing(input, input.groups[g]))
  }

  // ----- what a specifier asks for

  predicate Usable(s: Stream) {
    match s.mediaType
    case Audio => s.parameters
    case Video => s.parameters
    case Unknown => false
    case _ => true
  }

  /** All constraints but the list and the index. */
  predicate Satisfies(ss: StreamSpecifier, s: Stream) {
    && (ss.mediaType == Unknown || (ss.mediaType == s.mediaType && !(ss.noApic && ATTACHED_PIC in s.disposition)))
    && (ss.metaKey.Some? ==>
        var v := s.tag(ss.metaKey.value);
        v.Some? && (ss.metaVal.Some? ==> v == ss.metaVal))
    && (ss.usableOnly ==> Usable(s))
    && ss.disposition <= s.disposition
  }

  function FirstWithId(ls: seq<Listing>, id: int): (r: Option<Listing>)
    ensures r.Some? <==> exists k :: 0 <= k < |ls| && ls[k].id == id
    ensures r.Some? ==> exists k ::
      0 <= k < |ls| && r.value == ls[k] && ls[k].id == id && forall j | 0 <= j < k :: ls[j].id != id
  {
    if ls == [] then None else if ls[0].id == id then Some(ls[0]) else FirstWithId(ls[1..], id)
  }

  function Range(n: nat): (r: seq<nat>)
    ensures |r| == n && forall i | 0 <= i < n :: r[i] == i
  {
    seq(n, i => i)
  }

  /** The list of streams that a specifier chooses from. */
  function Listed(ss: StreamSpecifier, input: Input): Option<seq<nat>> {
    match ss.streamList
    case All => Some(Range(|input.streams|))
    case StreamId => Some(Filtered((k: nat) => k < |input.streams| &&
        input.streams[k].id == ss.listId, Range(|input.streams|)))
    case Program =>
      var p := FirstWithId(input.programs, ss.listId);
      if p.None? then None else Some(p.value.streams)
    case GroupId =>
      var g := FirstWithId(input.groups, ss.listId);
      if g.None? then None else Some(g.value.streams)
    case GroupIdx =>
      if 0 <= ss.listId < |input.groups| then Some(input.groups[ss.listId].streams) else None
  }

  function Filtered(keep: nat -> bool, l: seq<nat>): seq<nat> {
    if l == [] then []
    else
      var front := Filtered(keep, l[..|l| - 1]);
      if keep(l[|l| - 1]) then front + [l[|l| - 1]] else front
  }

  function Satisfying(ss: StreamSpecifier, input: Input): nat -> bool {
    (k: nat) => k < |input.streams| && Satisfies(ss, input.streams[k])
  }

  /** The streams of the list that satisfy the other constraints, in order. */
  function Candidates(ss: StreamSpecifier, input: Input): seq<nat> {
    var l := Listed(ss, input);
    if l.None? then [] else Filtered(Satisfying(ss, input), l.value)
  }

  /** A stream is picked if it is a candidate, and, where there is an index, if its first place
      among the candidates is that index. */
  predicate Picks(idx: int, candidates: seq<nat>, st: nat) {
    exists k :: 0 <= k < |candidates| && candidates[k] == st && st !in candidates[..k] && (idx < 0 || idx == k)
  }

  lemma {:induction false} FilteredPrefix(keep: nat -> bool, l: seq<nat>, i: nat)
    requires i <= |l|
    ensures Filtered(keep, l[..i]) <= Filtered(keep, l)
    decreases |l|
  {
    if i < |l| {
      assert l[..|l| - 1][..i] == l[..i];
      FilteredPrefix(keep, l[..|l| - 1], i);
    } else {
      assert l[..i] == l;
    }
  }

  predicate Distinct(l: seq<nat>) {
    forall i, j | 0 <= i < j < |l| :: l[i] != l[j]
  }

  lemma {:induction false} FilteredMembers(keep: nat -> bool, l: seq<nat>)
    ensures forall x :: x in Filtered(keep, l) <==> x in l && keep(x)
    ensures Distinct(l) ==> Distinct(Filtered(keep, l))
  {
    if l != [] {
      var front, last := l[..|l| - 1], l[|l| - 1];
      assert l == front + [last];
      FilteredMembers(keep, front);
      assert Distinct(l) ==> Distinct(front) && last !in front;
    }
  }

  /** Something is picked as soon as it is a candidate, if there is no index. */
  lemma PicksCandidate(candidates: seq<nat>, st: nat)
    ensures forall idx: int | idx < 0 :: Picks(idx, candidates, st) <==> st in candidates
  {
    if st in candidates {
      FirstPlace(candidates, st, |candidates|);
    }
  }

  lemma {:induction false} FirstPlace(candidates: seq<nat>, st: nat, n: nat)
    requires n <= |candidates| && st in candidates[..n]
    ensures exists k :: 0 <= k < n && candidates[k] == st && st !in candidates[..k]
  {
    if st in candidates[..n - 1] {
      FirstPlace(candidates, st, n - 1);
    } else {
      assert candidates[n - 1] == st;
    }
  }

  // ----- the scan

  /** The test of one candidate, as the loop makes it. */
  method Accepts(ss: StreamSpecifier, s: Stream) returns (ok: bool)
    ensures ok == Satisfies(ss, s)
  {
    if ss.mediaType != Unknown && (ss.mediaType != s.mediaType || (ss.noApic && ATTACHED_PIC in s.disposition)) {
      return false;
    }
    if ss.metaKey.Some? {
      var tag := s.tag(ss.metaKey.value);
      if tag.None? {
        return false;
      }
      if ss.metaVal.Some? && tag.value != ss.metaVal.value {
        return false;
      }
    }
    if ss.usableOnly {
      match s.mediaType {
        case Audio => if !s.parameters { return false; }
        case Video => if !s.parameters { return false; }
        case Unknown => return false;
        case _ =>
      }
    }
    if ss.disposition != {} && s.disposition * ss.disposition != ss.disposition {
      return false;
    }
    return true;
  }

  /** The loop over the candidates: counts those passed, and ends at the stream itself. */
  method Scan(ss: StreamSpecifier, input: Input, l: seq<nat>, st: nat) returns (r: bool)
    requires forall k | 0 <= k < |l| :: l[k] < |input.streams|
    ensures r == Picks(ss.idx, Filtered(Satisfying(ss, input), l), st)
  {
    ghost var keep := Satisfying(ss, input);
    var nbMatched := 0;
    for i := 0 to |l|
      invariant nbMatched == |Filtered(keep, l[..i])| && st !in Filtered(keep, l[..i])
    {
      var ok := Accepts(ss, input.streams[l[i]]);
      assert l[..i + 1][..i] == l[..i];
      if ok {
        if l[i] == st {
          Found(ss, input, l, i, st);
          return ss.idx < 0 || ss.idx == nbMatched;
        }
        nbMatched := nbMatched + 1;
      }
    }
    assert l[..|l|] == l;
    return false;
  }

  lemma Found(ss: StreamSpecifier, input: Input, l: seq<nat>, i: nat, st: nat)
    requires i < |l| && l[i] == st && Satisfying(ss, input)(st)
    requires st !in Filtered(Satisfying(ss, input), l[..i])
    ensures Picks(ss.idx, Filtered(Satisfying(ss, input), l), st) <==>
      (ss.idx < 0 || ss.idx == |Filtered(Satisfying(ss, input), l[..i])|)
  {
    var keep := Satisfying(ss, input);
    var n := |Filtered(keep, l[..i])|;
    assert l[..i + 1][..i] == l[..i];
    FilteredPrefix(keep, l, i);
    FilteredPrefix(keep, l, i + 1);
    var f := Filtered(keep, l);
    assert f[..n] == Filtered(keep, l[..i]) && f[n] == st;
    assert forall k | n < k < |f| :: f[..k][n] == st;
  }

  /** `stream_specifier_match`. For a stream ID, and for all streams without an index, it looks
      only at the stream itself. */
  method StreamSpecifierMatch(ss: StreamSpecifier, input: Input, st: nat) returns (r: bool)
    requires ValidInput(input) && st < |input.streams| && Sound(ss)
    ensures r == Picks(ss.idx, Candidates(ss, input), st)
  {
    var l: seq<nat>;
    match ss.streamList {
      case StreamId =>
        assert ss.idx < 0;
        ScanOfOne(ss, input, st);
        if input.streams[st].id != ss.listId {
          return false;
        }
        l := [st];
      case All =>
        if ss.idx < 0 {
          ScanOfOne(ss, input, st);
        } else {
          ScanUpTo(ss, input, st);
        }
        l := if ss.idx >= 0 then Range(st + 1) else [st];
      case Program =>
        var p := FindListing(input.programs, ss.listId);
        if p.None? {
          return false;
        }
        l := p.value.streams;
      case GroupId =>
        var g := FindListing(input.groups, ss.listId);
        if g.None? {
          return false;
        }
        l := g.value.streams;
      case GroupIdx =>
        if !(0 <= ss.listId < |input.groups|) {
          return false;
        }
        l := input.groups[ss.listId].streams;
    }
    r := Scan(ss, input, l, st);
  }

  method FindListing(ls: seq<Listing>, id: int) returns (r: Option<Listing>)
    ensures r == FirstWithId(ls, id)
  {
    for i := 0 to |ls|
      invariant FirstWithId(ls, id) == FirstWithId(ls[i..], id)
    {
      if ls[i].id == id {
        return Some(ls[i]);
      }
    }
    return None;
  }

  /** The scan of a single stream agrees with the full one where there is no index. */
  lemma ScanOfOne(ss: StreamSpecifier, input: Input, st: nat)
    requires st < |input.streams| && ss.idx < 0 && ss.streamList in {All, StreamId}
    ensures Picks(ss.idx, Candidates(ss, input), st) <==>
      (ss.streamList == All || input.streams[st].id == ss.listId) &&
          Picks(ss.idx, Filtered(Satisfying(ss, input), [st]), st)
  {
    var keep := Satisfying(ss, input);
    var l := Listed(ss, input).value;
    PicksCandidate(Candidates(ss, input), st);
    PicksCandidate(Filtered(keep, [st]), st);
    FilteredMembers(keep, l);
    FilteredMembers(keep, [st]);
    assert Range(|input.streams|)[st] == st;
    FilteredMembers((k: nat) => k < |input.streams| && input.streams[k].id == ss.listId, Range(|input.streams|));
  }

  /** And what lies behind the stream does not matter. */
  lemma ScanUpTo(ss: StreamSpecifier, input: Input, st: nat)
    requires st < |input.streams| && ss.streamList == All
    ensures Picks(ss.idx, Candidates(ss, input), st) <==>
        Picks(ss.idx, Filtered(Satisfying(ss, input), Range(st + 1)), st)
  {
    var keep := Satisfying(ss, input);
    var all, some := Range(|input.streams|), Range(st + 1);
    assert all[..st + 1] == some;
    assert all[..st] == some[..st];
    FilteredMembers(keep, all[..st]);
    assert all[st] == st && some[st] == st;
    if keep(st) {
      Found(ss, input, all, st, st);
      Found(ss, input, some, st, st);
    } else {
      FilteredMembers(keep, all);
      FilteredMembers(keep, some);
    }
  }

  // ----- what the index means

  /** In a list without repetitions, a specifier with an index picks the stream at that place
      among the candidates, and no other; if there are fewer candidates it picks none. */
  lemma IndexPicksOne(ss: StreamSpecifier, input: Input, st: nat)
    requires ss.idx >= 0 && Listed(ss, input).Some?
    requires Distinct(Listed(ss, input).value)
    ensures Picks(ss.idx, Candidates(ss, input), st) <==>
      ss.idx < |Candidates(ss, input)| && Candidates(ss, input)[ss.idx] == st
  {
    FilteredMembers(Satisfying(ss, input), Listed(ss, input).value);
    PlaceIsIndex(Candidates(ss, input), ss.idx, st);
  }

  lemma PlaceIsIndex(f: seq<nat>, idx: nat, st: nat)
    requires Distinct(f)
    ensures Picks(idx, f, st) <==> idx < |f| && f[idx] == st
  {
    if idx < |f| && f[idx] == st {
      assert st !in f[..idx];
    }
  }

  /** Without an index, every stream of the list that satisfies the constraints is picked. */
  lemma NoIndexPicksAll(ss: StreamSpecifier, input: Input, st: nat)
    requires ss.idx < 0 && st < |input.streams|
    ensures Picks(ss.idx, Candidates(ss, input), st) <==>
      Listed(ss, input).Some? && st in Listed(ss, input).value && Satisfies(ss, input.streams[st])
  {
    PicksCandidate(Candidates(ss, input), st);
    if Listed(ss, input).Some? {
      FilteredMembers(Satisfying(ss, input), Listed(ss, input).value);
    }
  }

  lemma TextMeans(id: nat, letter: char, media: MediaType, noApic: bool, n: nat, lib: Library)
    requires Denotes(letter, media, noApic) && id <= LONG_MAX && n < 0x8000_0000
    ensures Interpreted(EMPTY, [InProgram(id), Type(letter)] + [Index(n)], lib) ==
      Some((EMPTY.(streamList := Program, listId := id, mediaType := media, noApic := noApic, idx := n), ""))
  {
    InterpretedPair(EMPTY, InProgram(id), Type(letter), [Index(n)], lib);
    ToIntKeeps(n);
    InterpretedEnd(Typed(EMPTY.(streamList := Program, listId := id), letter), Index(n), lib);
  }

  lemma TextParses(id: nat, letter: char, media: MediaType, noApic: bool, n: nat, lib: Library)
    requires Denotes(letter, media, noApic) && id <= LONG_MAX && n < 0x8000_0000
    ensures Parsed(Join([InProgram(id), Type(letter), Index(n)]), false, lib) ==
      Some(EMPTY.(streamList := Program, listId := id, mediaType := media, noApic := noApic, idx := n))
  {
    var cs := [InProgram(id), Type(letter)] + [Index(n)];
    assert cs == [InProgram(id), Type(letter), Index(n)];
    TextReads(EMPTY, cs, lib);
    TextMeans(id, letter, media, noApic, n, lib);
  }

  /** From text to streams: "p:<id>:<letter>:<n>" picks the n-th stream of the type the letter
      stands for in the first program with that ID; "V" does not count attached pictures. */
  lemma TextPicks(id: nat, letter: char, media: MediaType, noApic: bool, n: nat, lib: Library, input: Input, st: nat)
    requires Denotes(letter, media, noApic) && id <= LONG_MAX && n < 0x8000_0000
    requires ValidInput(input) && st < |input.streams| && FirstWithId(input.programs, id).Some?
    requires Distinct(FirstWithId(input.programs, id).value.streams)
    ensures var ss := Parsed(Join([InProgram(id), Type(letter), Index(n)]), false, lib);
      var ofKind := Filtered((k: nat) => k < |input.streams| && input.streams[k].mediaType == media &&
                               !(noApic && ATTACHED_PIC in input.streams[k].disposition),
                             FirstWithId(input.programs, id).value.streams);
      && ss.Some?
      && (Picks(ss.value.idx, Candidates(ss.value, input), st) <==> n < |ofKind| && ofKind[n] == st)
  {
    TextParses(id, letter, media, noApic, n, lib);
    var ss := EMPTY.(streamList := Program, listId := id, mediaType := media, noApic := noApic, idx := n);
    IndexPicksOne(ss, input, st);
    SameFilter(Satisfying(ss, input),
               (k: nat) => k < |input.streams| && input.streams[k].mediaType == media &&
                 !(noApic && ATTACHED_PIC in input.streams[k].disposition),
               FirstWithId(input.programs, id).value.streams);
  }

  // ----- what each constraint picks

  predicate PickedBy(text: string, lib: Library, input: Input, st: nat) {
    var ss := Parsed(text, false, lib);
    ss.Some? && Picks(ss.value.idx, Candidates(ss.value, input), st)
  }

  /** A letter picks all streams of its type; "V" leaves out those with an attached picture. */
  lemma LetterPicks(letter: char, media: MediaType, noApic: bool, lib: Library, input: Input, st: nat)
    requires Denotes(letter, media, noApic) && st < |input.streams|
    ensures PickedBy([letter], lib, input, st) <==>
      input.streams[st].mediaType == media && !(noApic && ATTACHED_PIC in input.streams[st].disposition)
  {
    LettersMean(letter, media, noApic, lib);
    AllPicks(EMPTY.(mediaType := media, noApic := noApic), input, st);
  }

  /** Without a list and an index, the streams that satisfy the constraints. */
  lemma AllPicks(ss: StreamSpecifier, input: Input, st: nat)
    requires ss.idx < 0 && ss.streamList == All && st < |input.streams|
    ensures Picks(ss.idx, Candidates(ss, input), st) <==> Satisfies(ss, input.streams[st])
  {
    NoIndexPicksAll(ss, input, st);
    assert Range(|input.streams|)[st] == st;
  }

  /** Which streams each kind of list names. */
  lemma ListedIs(ss: StreamSpecifier, input: Input)
    ensures var l := Listed(ss, input);
      match ss.streamList
      case All => l.Some? && |l.value| == |input.streams| && forall i | 0 <= i < |l.value| :: l.value[i] == i
      case StreamId => l.Some? && forall i: nat ::
        i in l.value <==> i < |input.streams| && input.streams[i].id == ss.listId
      case Program => NamesFirst(input.programs, ss.listId, l)
      case GroupId => NamesFirst(input.groups, ss.listId, l)
      case GroupIdx =>
        && (l.Some? <==> 0 <= ss.listId < |input.groups|)
        && forall g: nat | g < |input.groups| && ss.listId == g :: l == Some(input.groups[g].streams)
  {
    FilteredMembers((k: nat) => k < |input.streams| && input.streams[k].id == ss.listId, Range(|input.streams|));
    forall i: nat ensures i in Range(|input.streams|) <==> i < |input.streams| {
      assert i < |input.streams| ==> Range(|input.streams|)[i] == i;
    }
  }

  /** The streams of the first of `ls` with that ID, if there is one. */
  ghost predicate NamesFirst(ls: seq<Listing>, id: int, l: Option<seq<nat>>) {
    && (l.None? <==> forall k | 0 <= k < |ls| :: ls[k].id != id)
    && (l.Some? ==> exists k ::
          0 <= k < |ls| && ls[k].id == id && l == Some(ls[k].streams) && forall j | 0 <= j < k :: ls[j].id != id)
  }

  /** "g:<n>", "g:#<id>", "p:<id>" and "#<id>" pick the streams of the n-th group, of the first
      group and of the first program with that ID, and the streams with that ID. */
  lemma ListPicks(n: nat, short: bool, lib: Library, input: Input, st: nat)
    requires n <= LONG_MAX && st < |input.streams|
    ensures PickedBy("g:" + Decimal(n), lib, input, st) <==>
      n < |input.groups| && st in input.groups[n].streams
    ensures PickedBy("g:" + IdMark(short) + Decimal(n), lib, input, st) <==> InFirst(input.groups, n, st)
    ensures PickedBy("p:" + Decimal(n), lib, input, st) <==> InFirst(input.programs, n, st)
    ensures PickedBy(IdMark(short) + Decimal(n), lib, input, st) <==> input.streams[st].id == n
  {
    OneListPicks(InGroup(n), GroupIdx, n, lib, input, st);
    OneListPicks(InGroupId(n, short), GroupId, n, lib, input, st);
    OneListPicks(InProgram(n), Program, n, lib, input, st);
    OneListPicks(Id(n, short), StreamId, n, lib, input, st);
  }

  ghost predicate InFirst(ls: seq<Listing>, id: int, st: nat) {
    exists k :: 0 <= k < |ls| && ls[k].id == id && st in ls[k].streams && forall j | 0 <= j < k :: ls[j].id != id
  }

  lemma OneListPicks(c: Component, list: StreamList, n: nat, lib: Library, input: Input, st: nat)
    requires n <= LONG_MAX && st < |input.streams| && WellFormed(c)
    requires Meaning(EMPTY, c, lib) == Some(EMPTY.(streamList := list, listId := n))
    ensures var l := Listed(EMPTY.(streamList := list, listId := n), input);
      PickedBy(Text(c), lib, input, st) <==> l.Some? && st in l.value
    ensures var l := Listed(EMPTY.(streamList := list, listId := n), input);
      match list
      case StreamId => l.Some? && (st in l.value <==> input.streams[st].id == n)
      case Program => (l.Some? && st in l.value) <==> InFirst(input.programs, n, st)
      case GroupId => (l.Some? && st in l.value) <==> InFirst(input.groups, n, st)
      case GroupIdx => (l.Some? && st in l.value) <==> n < |input.groups| && st in input.groups[n].streams
      case All => true
  {
    var ss := EMPTY.(streamList := list, listId := n);
    ComponentAlone(c, lib);
    NoIndexPicksAll(ss, input, st);
    ListedIs(ss, input);
    match list
    case Program => FirstNamed(input.programs, n, Listed(ss, input), st);
    case GroupId => FirstNamed(input.groups, n, Listed(ss, input), st);
    case _ =>
  }

  lemma FirstNamed(ls: seq<Listing>, id: int, l: Option<seq<nat>>, st: nat)
    requires NamesFirst(ls, id, l)
    ensures (l.Some? && st in l.value) <==> InFirst(ls, id, st)
  {
  }

  /** "disp:<names>" picks the streams that have all the dispositions named. */
  lemma DispositionPicks(names: string, lib: Library, input: Input, st: nat)
    requires WellFormed(Disp(names)) && lib.flags(names).Some? && st < |input.streams|
    ensures PickedBy("disp:" + names, lib, input, st) <==>
      forall bit | bit in lib.flags(names).value :: bit in input.streams[st].disposition
  {
    ComponentAlone(Disp(names), lib);
    AllPicks(EMPTY.(disposition := lib.flags(names).value), input, st);
  }

  /** "m:<key>" picks the streams with such a tag, "m:<key>:<val>" those where it has that value. */
  lemma MetaPicks(key: string, val: string, lib: Library, input: Input, st: nat)
    requires lib.token(key + ":" + val) == lib.token(key) == (key, |key|) && lib.token(val) == (val, |val|)
    requires ':' !in key && st < |input.streams|
    ensures PickedBy("m:" + key, lib, input, st) <==> input.streams[st].tag(key) != None
    ensures PickedBy("m:" + key + ":" + val, lib, input, st) <==> input.streams[st].tag(key) == Some(val)
  {
    MetaMeans(key, val, lib);
    AllPicks(EMPTY.(metaKey := Some(key)), input, st);
    AllPicks(EMPTY.(metaKey := Some(key), metaVal := Some(val)), input, st);
  }

  /** "u" picks the audio and video streams whose parameters are known, and no stream of unknown
      type; of the other types all. */
  lemma UsablePicks(lib: Library, input: Input, st: nat)
    requires st < |input.streams|
    ensures var s := input.streams[st];
      && (s.mediaType == Audio || s.mediaType == Video ==> (PickedBy("u", lib, input, st) <==> s.parameters))
      && (s.mediaType == Unknown ==> !PickedBy("u", lib, input, st))
      && (s.mediaType in {Subtitle, Data, Attachment} ==> PickedBy("u", lib, input, st))
  {
    ComponentAlone(Component.Usable, lib);
    AllPicks(EMPTY.(usableOnly := true), input, st);
  }

  lemma {:induction false} SameFilter(p: nat -> bool, q: nat -> bool, l: seq<nat>)
    requires forall k | k in l :: p(k) == q(k)
    ensures Filtered(p, l) == Filtered(q, l)
  {
    if l != [] {
      SameFilter(p, q, l[..|l| - 1]);
    }
  }
}
