/** The check a decrypted media archive must pass, in one pass over its members, before anything is restored. */
module MediaPreflight {
  import opened Wrappers
  import opened Streams
  import opened Text

  datatype Kind = File | Directory | Other

  // One archive member as the tar reader presents it; `content` is absent when no stream can be opened.
  datatype Member = Member(name: string, kind: Kind, sparse: bool, size: int, content: Option<seq<bv8>>)

  datatype MediaError = InvalidMember | ConflictingPaths | Unreadable | Truncated

  function NormalName(m: Member): string {
    if |m.name| >= 2 && m.name[..2] == "./" then m.name[2..] else m.name
  }

  predicate PlainPart(part: string) {
    part != "" && part != "." && part != ".."
  }

  predicate PlainName(name: string) {
    (name == "." || forall k | 0 <= k < |Split(name, '/')| :: PlainPart(Split(name, '/')[k])) && '\\' !in name
  }

  predicate HeaderOk(m: Member) {
    && PlainName(NormalName(m))
    && !m.kind.Other? && !m.sparse && m.size >= 0
    && (m.kind.Directory? ==> m.size == 0)
    && (NormalName(m) == "." ==> m.kind.Directory?)
  }

  // The path prefixes of a name, shortest first, leaving out the name itself.
  function Ancestors(name: string): set<string> {
    var parts := Split(name, '/');
    set k | 1 <= k < |parts| :: Join(parts[..k], '/')
  }

  predicate FullyReadable(m: Member) {
    m.kind.File? ==> m.content.Some? && |m.content.value| >= m.size
  }

  predicate MemberOk(m: Member) {
    HeaderOk(m) && FullyReadable(m)
  }

  // ---- The pass ----

  datatype Seen = Seen(names: set<string>, files: set<string>, parents: set<string>)

  function Examine(seen: Seen, m: Member): Result<Seen, MediaError> {
    var name := NormalName(m);
    if !HeaderOk(m) || name in seen.names then Err(InvalidMember)
    else if Ancestors(name) * seen.files != {} || (m.kind.File? && name in seen.parents) then Err(ConflictingPaths)
    else if m.kind.File? && m.content.None? then Err(Unreadable)
    else if !FullyReadable(m) then Err(Truncated)
    else Ok(Seen(seen.names + {name}, if m.kind.File? then seen.files + {name} else seen.files,
                 seen.parents + Ancestors(name)))
  }

  function Pass(seen: Seen, members: seq<Member>): Result<Seen, MediaError>
    decreases |members|
  {
    if members == [] then Ok(seen)
    else
      match Examine(seen, members[0])
      case Err(e) => Err(e)
      case Ok(next) => Pass(next, members[1..])
  }

  const NOTHING_SEEN := Seen({}, {}, {})

  method ReadWhole(content: seq<bv8>, size: nat) returns (complete: bool)
    ensures complete <==> |content| >= size
  {
    var stream := new ByteStream(content);
    var remaining := size;
    while remaining > 0
      invariant stream.position <= |content| && stream.data == content
      invariant remaining == size - stream.position
    {
      var chunk := stream.Read(if remaining < 65536 then remaining else 65536);
      if chunk == [] {
        return false;
      }
      remaining := remaining - |chunk|;
    }
    return true;
  }

  lemma PassAppend(seen: Seen, a: seq<Member>, b: seq<Member>)
    requires Pass(seen, a).Ok?
    ensures Pass(seen, a + b) == Pass(Pass(seen, a).value, b)
    decreases |a|
  {
    if a == [] {
      assert a + b == b;
    } else {
      assert (a + b)[1..] == a[1..] + b;
      PassAppend(Examine(seen, a[0]).value, a[1..], b);
    }
  }

  lemma PassSnoc(members: seq<Member>, i: nat)
    requires i < |members| && Pass(NOTHING_SEEN, members[..i]).Ok?
    ensures var here := Examine(Pass(NOTHING_SEEN, members[..i]).value, members[i]);
            && Pass(NOTHING_SEEN, members[..i + 1]) == here
            && (here.Err? ==> Pass(NOTHING_SEEN, members) == here)
  {
    hide Examine, Pass;
    PassContinues(members[..i], [members[i]]);
    PassContinues(members[..i], members[i..]);
    assert members[..i + 1] == members[..i] + [members[i]];
    assert members == members[..i] + members[i..];
  }

  lemma PassContinues(a: seq<Member>, b: seq<Member>)
    requires Pass(NOTHING_SEEN, a).Ok? && b != []
    ensures var here := Examine(Pass(NOTHING_SEEN, a).value, b[0]);
            && (here.Err? ==> Pass(NOTHING_SEEN, a + b) == here)
            && (|b| == 1 ==> Pass(NOTHING_SEEN, a + b) == here)
  {
    PassAppend(NOTHING_SEEN, a, b);
    PassStarts(Pass(NOTHING_SEEN, a).value, b);
    hide Examine, Pass;
  }

  lemma PassStarts(seen: Seen, members: seq<Member>)
    requires members != []
    ensures var here := Examine(seen, members[0]);
            && (here.Err? ==> Pass(seen, members) == here) && (|members| == 1 ==> Pass(seen, members) == here)
  {
    hide Examine;
  }

  method ValidateMediaArchive(members: seq<Member>) returns (outcome: Option<MediaError>)
    ensures outcome == match Pass(NOTHING_SEEN, members) { case Ok(_) => None case Err(e) => Some(e) }
  {
    var names: set<string>, files: set<string>, parents: set<string> := {}, {}, {};
    var i := 0;
    while i < |members|
      invariant 0 <= i <= |members|
      invariant Pass(NOTHING_SEEN, members[..i]) == Ok(Seen(names, files, parents))
    {
      var member := members[i];
      PassSnoc(members, i);
      var name := NormalName(member);
      if !HeaderOk(member) || name in names {
        return Some(InvalidMember);
      }
      var ancestors := Ancestors(name);
      if ancestors * files != {} || (member.kind.File? && name in parents) {
        return Some(ConflictingPaths);
      }
      names := names + {name};
      parents := parents + ancestors;
      if member.kind.File? {
        files := files + {name};
        if member.content.None? {
          return Some(Unreadable);
        }
        var complete := ReadWhole(member.content.value, member.size);
        if !complete {
          return Some(Truncated);
        }
      }
      i := i + 1;
    }
    assert members[..i] == members;
    return None;
  }

  // ---- What the pass decides, in no particular order ----

  // A path that another path continues below a slash.
  predicate ProperAncestor(a: string, name: string) {
    a + "/" <= name
  }

  lemma AncestorsAreProper(a: string, name: string)
    ensures a in Ancestors(name) <==> ProperAncestor(a, name)
  {
    var parts := Split(name, '/');
    JoinSplit(name, '/');
    if a in Ancestors(name) {
      var k :| 1 <= k < |parts| && a == Join(parts[..k], '/');
      assert parts == parts[..k] + parts[k..];
      JoinAppend(parts[..k], parts[k..], '/');
    }
    if ProperAncestor(a, name) {
      var below := name[|a| + 1..];
      assert name == a + ['/'] + below;
      SplitAppend(a, below, '/');
      JoinSplit(a, '/');
      assert parts[..|Split(a, '/')|] == Split(a, '/');
    }
  }

  // Two members that cannot sit in one tree: the same name, or one a file above the other.
  predicate Clash(a: Member, b: Member) {
    || NormalName(a) == NormalName(b)
    || (a.kind.File? && ProperAncestor(NormalName(a), NormalName(b)))
    || (b.kind.File? && ProperAncestor(NormalName(b), NormalName(a)))
  }

  ghost predicate WellFormed(members: seq<Member>) {
    && (forall i | 0 <= i < |members| :: MemberOk(members[i]))
    && (forall i, j | 0 <= i < j < |members| :: !Clash(members[i], members[j]))
  }

  // The three sets hold what the members so far say.
  ghost predicate Collected(seen: Seen, members: seq<Member>) {
    && (forall n :: n in seen.names <==> exists m :: m in members && NormalName(m) == n)
    && (forall n :: n in seen.files <==> exists m :: m in members && m.kind.File? && NormalName(m) == n)
    && (forall n :: n in seen.parents <==> exists m :: m in members && ProperAncestor(n, NormalName(m)))
  }

  lemma ExamineDecides(seen: Seen, before: seq<Member>, m: Member)
    requires Collected(seen, before)
    ensures Examine(seen, m).Ok? <==> MemberOk(m) && forall i | 0 <= i < |before| :: !Clash(before[i], m)
  {
    hide HeaderOk, ProperAncestor, Ancestors;
    var name := NormalName(m);
    forall a ensures a in Ancestors(name) <==> ProperAncestor(a, name) {
      AncestorsAreProper(a, name);
    }
    if Ancestors(name) * seen.files != {} {
      var a :| a in Ancestors(name) && a in seen.files;
      var x :| x in before && x.kind.File? && NormalName(x) == a;
      assert Clash(x, m);
    }
    if x :| x in before && Clash(x, m) {
      if x.kind.File? && ProperAncestor(NormalName(x), name) {
        assert NormalName(x) in Ancestors(name) * seen.files;
      }
    }
  }

  lemma ExamineCollects(seen: Seen, before: seq<Member>, m: Member)
    requires Collected(seen, before) && Examine(seen, m).Ok?
    ensures Collected(Examine(seen, m).value, before + [m])
  {
    hide HeaderOk, ProperAncestor, Ancestors;
    forall n ensures n in Ancestors(NormalName(m)) <==> ProperAncestor(n, NormalName(m)) {
      AncestorsAreProper(n, NormalName(m));
    }
    assert m in before + [m];
    assert forall x :: x in before + [m] <==> x in before || x == m;
  }

  lemma OneMoreStaysWellFormed(before: seq<Member>, m: Member)
    requires WellFormed(before) && MemberOk(m) && forall i | 0 <= i < |before| :: !Clash(before[i], m)
    ensures WellFormed(before + [m])
  {
  }

  lemma {:induction false} PassDecides(seen: Seen, before: seq<Member>, members: seq<Member>)
    requires Collected(seen, before) && WellFormed(before)
    ensures Pass(seen, members).Ok? <==> WellFormed(before + members)
    decreases |members|
  {
    hide Clash, MemberOk, Examine, Collected;
    var all := before + members;
    if members == [] {
      assert all == before;
    } else {
      var m := members[0];
      ExamineDecides(seen, before, m);
      assert all[|before|] == m && forall i | 0 <= i < |before| :: all[i] == before[i];
      if Examine(seen, m).Ok? {
        ExamineCollects(seen, before, m);
        var longer := before + [m];
        OneMoreStaysWellFormed(before, m);
        assert longer + members[1..] == all;
        PassDecides(Examine(seen, m).value, longer, members[1..]);
      } else if MemberOk(m) {
        var i :| 0 <= i < |before| && Clash(before[i], m);
        assert Clash(all[i], all[|before|]);
      }
    }
  }

  /** The pass accepts an archive exactly when every member is valid and fully readable, names are pairwise distinct,
      and no file is a proper path ancestor of another member. */
  lemma AcceptsExactlyWellFormed(members: seq<Member>)
    ensures Pass(NOTHING_SEEN, members).Ok? <==> WellFormed(members)
  {
    PassDecides(NOTHING_SEEN, [], members);
    assert [] + members == members;
  }

  // ---- Where the accepted members go ----

  // A path followed component by component, from a place below the root: ".." goes up, "." and "" stay. None once it
  // leaves the root.
  function Resolve(place: seq<string>, parts: seq<string>): Option<seq<string>>
    decreases |parts|
  {
    if parts == [] then Some(place)
    else if parts[0] == ".." then
      if place == [] then None else Resolve(place[..|place| - 1], parts[1..])
    else if parts[0] == "." || parts[0] == "" then Resolve(place, parts[1..])
    else Resolve(place + [parts[0]], parts[1..])
  }

  function PathOf(m: Member): Option<seq<string>> {
    Resolve([], Split(m.name, '/'))
  }

  lemma {:induction false} ResolvesToItself(place: seq<string>, parts: seq<string>)
    ensures Resolve(place, parts).Some? ==> |Resolve(place, parts).value| <= |place| + |parts|
    ensures Resolve(place, parts) == Some(place + parts) <==> forall k | 0 <= k < |parts| :: PlainPart(parts[k])
    ensures Resolve(place, parts).Some? && |Resolve(place, parts).value| == |place| + |parts| ==>
              forall k | 0 <= k < |parts| :: PlainPart(parts[k])
    decreases |parts|
  {
    if parts == [] {
      assert place + parts == place;
    } else {
      var rest := parts[1..];
      assert parts == [parts[0]] + rest;
      if parts[0] == ".." {
        if place != [] {
          ResolvesToItself(place[..|place| - 1], rest);
        }
      } else if parts[0] == "." || parts[0] == "" {
        ResolvesToItself(place, rest);
      } else {
        ResolvesToItself(place + [parts[0]], rest);
        assert place + parts == place + [parts[0]] + rest;
      }
    }
  }

  // A member that may be restored: a file that can be read whole, or an empty directory, whose name after an optional "./"
  // is its own resolved path, or the root itself as a directory.
  predicate Admissible(m: Member) {
    var name := if "./" <= m.name then m.name[2..] else m.name;
    && (|| (name == "." && m.kind == Directory)
        || ('\\' !in name && Resolve([], Split(name, '/')) == Some(Split(name, '/'))))
    && !m.sparse
    && match m.kind
       case File => m.content.Some? && 0 <= m.size <= |m.content.value|
       case Directory => m.size == 0
       case Other => false
  }

  lemma AdmitsExactly(m: Member)
    ensures MemberOk(m) <==> Admissible(m)
  {
    var name := NormalName(m);
    ResolvesToItself([], Split(name, '/'));
    assert [] + Split(name, '/') == Split(name, '/');
    if name == "." {
      SplitWithoutSeparator(".", '/');
    }
    hide Split;
  }

  lemma DotStays(place: seq<string>, rest: seq<string>)
    ensures Resolve(place, ["."] + rest) == Resolve(place, rest)
  {
    assert (["."] + rest)[1..] == rest;
  }

  lemma MemberStaysInside(m: Member)
    requires MemberOk(m)
    ensures PathOf(m) == Some(if NormalName(m) == "." then [] else Split(NormalName(m), '/'))
  {
    hide Split, Resolve;
    var name := NormalName(m);
    if "./" <= m.name {
      assert m.name == "." + ['/'] + name;
      SplitAppend(".", name, '/');
      SplitWithoutSeparator(".", '/');
      DotStays([], Split(name, '/'));
    }
    if name == "." {
      SplitWithoutSeparator(".", '/');
      DotStays([], []);
      RootItself();
    } else {
      ResolvesToItself([], Split(name, '/'));
      assert [] + Split(name, '/') == Split(name, '/');
    }
  }

  lemma RootItself()
    ensures Resolve([], []) == Some([]) && ["."] + [] == ["."]
  {
  }

  // Two members in each other's place: one path, or a file above the other.
  predicate SamePlace(a: Member, b: Member)
    requires PathOf(a).Some? && PathOf(b).Some?
  {
    || PathOf(a) == PathOf(b)
    || (a.kind == File && PathOf(a).value < PathOf(b).value)
    || (b.kind == File && PathOf(b).value < PathOf(a).value)
  }

  lemma AncestorsArePrefixes(a: string, name: string)
    ensures ProperAncestor(a, name) <==> Split(a, '/') < Split(name, '/')
    ensures a == name <==> Split(a, '/') == Split(name, '/')
  {
    JoinSplit(a, '/');
    JoinSplit(name, '/');
    if ProperAncestor(a, name) {
      var below := name[|a| + 1..];
      assert name == a + ['/'] + below;
      SplitAppend(a, below, '/');
    }
    if Split(a, '/') < Split(name, '/') {
      var below := Split(name, '/')[|Split(a, '/')|..];
      assert Split(name, '/') == Split(a, '/') + below;
      JoinAppend(Split(a, '/'), below, '/');
    }
  }

  lemma ClashIsSamePlace(a: Member, b: Member)
    requires MemberOk(a) && MemberOk(b)
    ensures PathOf(a).Some? && PathOf(b).Some?
    ensures Clash(a, b) <==> SamePlace(a, b)
  {
    MemberStaysInside(a);
    MemberStaysInside(b);
    AncestorsArePrefixes(NormalName(a), NormalName(b));
    AncestorsArePrefixes(NormalName(b), NormalName(a));
    hide PathOf, PlainName, Split;
  }

  /** Followed from the root, the name of an accepted member never leaves it and arrives at the member's own name, or at
      the root for ".". */
  lemma AcceptedStaysInside(members: seq<Member>, m: Member)
    requires Pass(NOTHING_SEEN, members).Ok? && m in members
    ensures var name := if "./" <= m.name then m.name[2..] else m.name;
            Resolve([], Split(m.name, '/')) == Some(if name == "." then [] else Split(name, '/'))
  {
    AcceptsExactlyWellFormed(members);
    var i :| 0 <= i < |members| && members[i] == m;
    hide Pass, MemberOk, Clash, Split, Resolve;
    MemberStaysInside(m);
  }

  /** An archive is accepted exactly when every member may be restored and no two of them go to one place or have a file
      above the other. */
  lemma AcceptsExactlySafeTrees(members: seq<Member>)
    ensures Pass(NOTHING_SEEN, members).Ok?
       <==> && (forall m | m in members :: Admissible(m) && PathOf(m).Some?)
            && (forall i, j | 0 <= i < j < |members| :: !SamePlace(members[i], members[j]))
  {
    AcceptsExactlyWellFormed(members);
    hide Pass, MemberOk, Admissible, Clash, SamePlace, PathOf;
    forall m | m in members ensures MemberOk(m) <==> Admissible(m) {
      AdmitsExactly(m);
    }
    forall i, j | 0 <= i < j < |members| && MemberOk(members[i]) && MemberOk(members[j])
      ensures PathOf(members[i]).Some? && PathOf(members[j]).Some?
      ensures Clash(members[i], members[j]) <==> SamePlace(members[i], members[j]) {
      ClashIsSamePlace(members[i], members[j]);
    }
    forall m | m in members && MemberOk(m) ensures PathOf(m).Some? {
      ClashIsSamePlace(m, m);
    }
  }

  // What is wrong with a member that comes after these.
  predicate Wrong(before: seq<Member>, m: Member, e: MediaError) {
    match e
    case InvalidMember => !HeaderOk(m) || exists x :: x in before && NormalName(x) == NormalName(m)
    case ConflictingPaths => exists x :: x in before && Clash(x, m) && NormalName(x) != NormalName(m)
    case Unreadable => m.kind == File && m.content == None
    case Truncated => m.kind == File && m.content.Some? && |m.content.value| < m.size
  }

  lemma ExamineReports(seen: Seen, before: seq<Member>, m: Member)
    requires Collected(seen, before) && Examine(seen, m).Err?
    ensures Wrong(before, m, Examine(seen, m).error)
  {
    hide HeaderOk, ProperAncestor, Ancestors;
    forall a ensures a in Ancestors(NormalName(m)) <==> ProperAncestor(a, NormalName(m)) {
      AncestorsAreProper(a, NormalName(m));
    }
    if Examine(seen, m).error.ConflictingPaths? {
      if a :| a in Ancestors(NormalName(m)) && a in seen.files {
        var x :| x in before && x.kind.File? && NormalName(x) == a;
        assert Clash(x, m);
      } else {
        var x :| x in before && ProperAncestor(NormalName(m), NormalName(x));
        assert Clash(x, m);
      }
    }
  }

  lemma {:induction false} PassReports(seen: Seen, before: seq<Member>, members: seq<Member>)
    requires Collected(seen, before) && Pass(seen, members).Err?
    ensures exists i | 0 <= i < |members| :: Wrong(before + members[..i], members[i], Pass(seen, members).error)
    decreases |members|
  {
    hide Examine, Collected, Wrong;
    if Examine(seen, members[0]).Err? {
      ExamineReports(seen, before, members[0]);
      assert before + members[..0] == before;
    } else {
      ExamineCollects(seen, before, members[0]);
      PassReports(Examine(seen, members[0]).value, before + [members[0]], members[1..]);
      var i :| 0 <= i < |members| - 1
               && Wrong(before + [members[0]] + members[1..][..i], members[1..][i], Pass(seen, members).error);
      assert before + [members[0]] + members[1..][..i] == before + members[..i + 1];
    }
  }

  /** A refusal names what is wrong with one member and those before it: its header or a repeated name, a path in conflict,
      no stream to read, or fewer bytes than its size. */
  lemma RefusalNamesAFault(members: seq<Member>)
    requires Pass(NOTHING_SEEN, members).Err?
    ensures exists i | 0 <= i < |members| :: Wrong(members[..i], members[i], Pass(NOTHING_SEEN, members).error)
  {
    hide Pass, Wrong;
    PassReports(NOTHING_SEEN, [], members);
    var i :| 0 <= i < |members| && Wrong([] + members[..i], members[i], Pass(NOTHING_SEEN, members).error);
    assert [] + members[..i] == members[..i];
  }

  // ---- Order does not matter ----

  ghost predicate WellFormedBag(members: multiset<Member>) {
    && (forall m | m in members :: MemberOk(m) && members[m] == 1)
    && (forall a, b | a in members && b in members && a != b :: !Clash(a, b))
  }

  lemma RepeatedMember(members: seq<Member>, i: nat, j: nat)
    requires i < j < |members| && members[i] == members[j]
    ensures multiset(members)[members[i]] >= 2
  {
    assert members == members[..j] + [members[j]] + members[j + 1..];
    assert members[..j][i] == members[i];
    assert multiset(members) == multiset(members[..j]) + multiset{members[j]} + multiset(members[j + 1..]);
    assert members[i] in multiset(members[..j]);
  }

  lemma {:induction false} DistinctMembersOccurOnce(members: seq<Member>, m: Member)
    requires forall i, j | 0 <= i < j < |members| :: members[i] != members[j]
    ensures multiset(members)[m] <= 1
    decreases |members|
  {
    if members != [] {
      var rest := members[..|members| - 1];
      assert members == rest + [members[|members| - 1]];
      DistinctMembersOccurOnce(rest, m);
      if m == members[|members| - 1] {
        assert m !in rest;
      }
    }
  }

  lemma WellFormedIntoBag(members: seq<Member>)
    requires WellFormed(members)
    ensures WellFormedBag(multiset(members))
  {
    hide Clash, MemberOk;
    var bag := multiset(members);
    forall m | m in bag ensures MemberOk(m) && bag[m] == 1 {
      assert m in members;
      forall i, j | 0 <= i < j < |members| ensures members[i] != members[j] {
        ClashesWithItself(members[i]);
      }
      DistinctMembersOccurOnce(members, m);
    }
    forall a, b | a in bag && b in bag && a != b ensures !Clash(a, b) {
      assert a in members && b in members;
      var i, j :| 0 <= i < |members| && 0 <= j < |members| && members[i] == a && members[j] == b;
      ClashIsMutual(a, b);
    }
  }

  lemma ClashesWithItself(m: Member)
    ensures Clash(m, m)
  {
  }

  lemma ClashIsMutual(a: Member, b: Member)
    ensures Clash(a, b) <==> Clash(b, a)
  {
  }

  lemma WellFormedFromBag(members: seq<Member>)
    requires WellFormedBag(multiset(members))
    ensures WellFormed(members)
  {
    hide Clash, MemberOk;
    forall i | 0 <= i < |members| ensures MemberOk(members[i]) {
      assert members[i] in multiset(members);
    }
    forall i, j | 0 <= i < j < |members| ensures !Clash(members[i], members[j]) {
      assert members[i] in multiset(members) && members[j] in multiset(members);
      if members[i] == members[j] {
        RepeatedMember(members, i, j);
      }
    }
  }

  lemma BagDecides(members: seq<Member>)
    ensures WellFormed(members) <==> WellFormedBag(multiset(members))
  {
    hide WellFormed, WellFormedBag;
    if WellFormed(members) {
      WellFormedIntoBag(members);
    }
    if WellFormedBag(multiset(members)) {
      WellFormedFromBag(members);
    }
  }

  /** Reordering the members never changes the verdict. */
  lemma OrderDoesNotMatter(a: seq<Member>, b: seq<Member>)
    requires multiset(a) == multiset(b)
    ensures Pass(NOTHING_SEEN, a).Ok? <==> Pass(NOTHING_SEEN, b).Ok?
  {
    AcceptsExactlyWellFormed(a);
    AcceptsExactlyWellFormed(b);
    BagDecides(a);
    BagDecides(b);
  }

  // ---- Laying the members out ----

  datatype Tree = Tree(files: set<string>, directories: set<string>)

  // Creates what is missing above a member, then the member; a file in the way stops it.
  function Place(tree: Tree, m: Member): Option<Tree> {
    var name := NormalName(m);
    if Ancestors(name) * tree.files != {} || name in tree.files then None
    else if m.kind.File? then
      (if name in tree.directories + Ancestors(name) then None
       else Some(Tree(tree.files + {name}, tree.directories + Ancestors(name))))
    else Some(Tree(tree.files, tree.directories + Ancestors(name) + {name}))
  }

  function LayOut(tree: Tree, members: seq<Member>): Option<Tree>
    decreases |members|
  {
    if members == [] then Some(tree)
    else
      match Place(tree, members[0])
      case None => None
      case Some(next) => LayOut(next, members[1..])
  }

  ghost predicate NoClash(members: seq<Member>) {
    forall i, j | 0 <= i < j < |members| :: !Clash(members[i], members[j])
  }

  ghost predicate Holds(tree: Tree, members: seq<Member>) {
    && (forall n :: n in tree.files <==> exists m :: m in members && m.kind.File? && NormalName(m) == n)
    && (forall n :: n in tree.directories <==> exists m :: m in members && NeedsDirectory(m, n))
  }

  predicate NeedsDirectory(m: Member, n: string) {
    (!m.kind.File? && NormalName(m) == n) || ProperAncestor(n, NormalName(m))
  }

  lemma NotItsOwnAncestor(name: string)
    ensures name !in Ancestors(name)
  {
    AncestorsAreProper(name, name);
  }

  lemma PlaceSucceeds(tree: Tree, before: seq<Member>, m: Member)
    requires Holds(tree, before) && forall x | x in before :: !Clash(x, m)
    ensures Place(tree, m).Some? && Holds(Place(tree, m).value, before + [m])
  {
    hide ProperAncestor, Ancestors;
    forall n ensures n in Ancestors(NormalName(m)) <==> ProperAncestor(n, NormalName(m)) {
      AncestorsAreProper(n, NormalName(m));
    }
    NotItsOwnAncestor(NormalName(m));
    assert Ancestors(NormalName(m)) * tree.files == {};
    assert m in before + [m];
    assert forall x :: x in before + [m] <==> x in before || x == m;
  }

  lemma {:induction false} LayOutSucceeds(tree: Tree, before: seq<Member>, members: seq<Member>)
    requires Holds(tree, before) && NoClash(before + members)
    ensures LayOut(tree, members).Some? && Holds(LayOut(tree, members).value, before + members)
    decreases |members|
  {
    hide Clash, Place, Holds;
    var all := before + members;
    if members == [] {
      assert all == before;
    } else {
      forall x | x in before ensures !Clash(x, members[0]) {
        var i :| 0 <= i < |before| && before[i] == x;
        assert all[i] == x && all[|before|] == members[0];
      }
      PlaceSucceeds(tree, before, members[0]);
      assert before + [members[0]] + members[1..] == all;
      LayOutSucceeds(Place(tree, members[0]).value, before + [members[0]], members[1..]);
    }
  }

  /** An accepted archive can be laid out in any order, and every order builds the same tree. */
  lemma AcceptedLayOutInAnyOrder(members: seq<Member>, order: seq<Member>)
    requires Pass(NOTHING_SEEN, members).Ok? && multiset(order) == multiset(members)
    ensures LayOut(Tree({}, {}), order).Some?
    ensures LayOut(Tree({}, {}), order) == LayOut(Tree({}, {}), members)
  {
    hide Pass, LayOut, Holds, WellFormed;
    AcceptsExactlyWellFormed(members);
    OrderDoesNotMatter(members, order);
    AcceptsExactlyWellFormed(order);
    WellFormedLaysOut(members);
    WellFormedLaysOut(order);
    forall m ensures m in order <==> m in members {
      assert m in multiset(order) <==> m in multiset(members);
    }
    SameMembersSameTree(LayOut(Tree({}, {}), order).value, order, LayOut(Tree({}, {}), members).value, members);
  }

  lemma WellFormedLaysOut(members: seq<Member>)
    requires WellFormed(members)
    ensures LayOut(Tree({}, {}), members).Some? && Holds(LayOut(Tree({}, {}), members).value, members)
  {
    hide LayOut, Clash, MemberOk;
    assert [] + members == members;
    LayOutSucceeds(Tree({}, {}), [], members);
  }

  lemma SameMembersSameTree(a: Tree, order: seq<Member>, b: Tree, members: seq<Member>)
    requires Holds(a, order) && Holds(b, members) && forall m :: m in order <==> m in members
    ensures a == b
  {
    assert a.files == b.files && a.directories == b.directories;
  }
}
