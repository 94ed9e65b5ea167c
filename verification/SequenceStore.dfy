/** The sequence counters on disk: one file per session holding a decimal number, replaced by
    way of a temporary file.  A save is followed through every point where it can be cut off. */
module SequenceStore {

  import opened Common
  import opened Text

  const U64_MAX: nat := 0xFFFF_FFFF_FFFF_FFFF
  type U64 = n: nat | n <= U64_MAX

  type SessionId = string
  type Name = string
  /** The directory `seq`. */
  type Directory = map<Name, string>

  // ---------------------------------------------------------------- numbers as text

  function Digit(d: nat): char
    requires d < 10
  {
    '0' + d as char
  }

  function Print(n: nat): string {
    if n < 10 then [Digit(n)] else Print(n / 10) + [Digit(n % 10)]
  }

  predicate IsDigit(c: char) {
    '0' <= c <= '9'
  }

  function Value(s: string): nat
    requires forall c :: c in s ==> IsDigit(c)
  {
    if |s| == 0 then 0
    else
      assert IsDigit(s[|s| - 1]);
      10 * Value(s[..|s| - 1]) + (s[|s| - 1] as int - '0' as int)
  }

  /** Rust's `parse::<u64>`: an optional plus sign, then digits, within 64 bits. */
  function Parse(s: string): Option<nat> {
    var digits := if |s| > 0 && s[0] == '+' then s[1..] else s;
    if |digits| > 0 && (forall c :: c in digits ==> IsDigit(c)) && Value(digits) <= U64_MAX
      then Some(Value(digits)) else None
  }

  lemma {:induction false} PrintIsDigits(n: nat)
    ensures |Print(n)| > 0 && forall c :: c in Print(n) ==> IsDigit(c)
    ensures Value(Print(n)) == n
  {
    if n >= 10 {
      PrintIsDigits(n / 10);
      assert Print(n)[..|Print(n)| - 1] == Print(n / 10);
    } else {
      assert Print(n)[..0] == [];
    }
  }

  /** Every 64-bit number survives printing, trimming and parsing; larger ones do not. */
  lemma PrintedIsParsed(n: nat)
    ensures Parse(Trim(Print(n))) == if n <= U64_MAX then Some(n) else None
  {
    PrintIsDigits(n);
    var s := Print(n);
    assert IsDigit(s[0]) && IsDigit(s[|s| - 1]);
    TrimUnpadded(s);
  }

  lemma {:induction false} ZerosInFront(zeros: string, s: string)
    requires (forall i :: 0 <= i < |zeros| ==> zeros[i] == '0') && (forall c :: c in s ==> IsDigit(c))
    ensures (forall c :: c in zeros + s ==> IsDigit(c)) && Value(zeros + s) == Value(s)
  {
    if |s| > 0 {
      ZerosInFront(zeros, s[..|s| - 1]);
      assert (zeros + s)[..|zeros + s| - 1] == zeros + s[..|s| - 1];
    } else if |zeros| > 0 {
      var fewer := zeros[..|zeros| - 1];
      ZerosInFront(fewer, s);
      assert zeros + s == zeros && fewer + s == fewer;
    }
  }

  /** Files written by hand are read the same with a plus sign or zeros in front. */
  lemma PlusAndZerosAreRead(sign: string, zeros: string, n: U64)
    requires sign in {"", "+"} && forall i :: 0 <= i < |zeros| ==> zeros[i] == '0'
    ensures Parse(sign + zeros + Print(n)) == Some(n)
  {
    PrintIsDigits(n);
    ZerosInFront(zeros, Print(n));
    var digits, s := zeros + Print(n), sign + zeros + Print(n);
    assert sign == "+" ==> s[0] == '+' && s[1..] == digits;
    assert sign == "" ==> s == digits && IsDigit(s[0]);
  }

  // ---------------------------------------------------------------- names

  predicate Allowed(c: char) {
    'a' <= c <= 'z' || 'A' <= c <= 'Z' || '0' <= c <= '9' || c == '-' || c == '_'
  }

  /** The file name of a session: only the allowed characters of its id. */
  function SafeName(sid: SessionId): Name {
    if |sid| == 0 then ""
    else if Allowed(sid[0]) then [sid[0]] + SafeName(sid[1..])
    else SafeName(sid[1..])
  }

  function TmpName(name: Name): Name {
    ['.'] + name + ".tmp"
  }

  lemma {:induction false} SafeNameIsAllowed(sid: SessionId)
    ensures forall c :: c in SafeName(sid) ==> Allowed(c)
    ensures (forall c :: c in sid ==> Allowed(c)) ==> SafeName(sid) == sid
  {
    if |sid| > 0 {
      SafeNameIsAllowed(sid[1..]);
      assert [sid[0]] + sid[1..] == sid;
    }
  }

  /** A session id of digits and letters, as hexadecimal ones are, is its own file name, and so
      is any with dashes or underscores. */
  lemma PlainIdIsItsName(sid: SessionId)
    requires forall c :: c in sid ==> '0' <= c <= '9' || 'a' <= c <= 'z' || 'A' <= c <= 'Z' || c in {'-', '_'}
    ensures SafeName(sid) == sid
  {
    SafeNameIsAllowed(sid);
  }

  /** No id leads out of the directory: file names hold no separator and no dot. */
  lemma NameStaysInside(sid: SessionId, c: char)
    requires c in {'/', '\\', '.', 0 as char}
    ensures c !in SafeName(sid)
  {
    SafeNameIsAllowed(sid);
  }

  /** No session's own file is a temporary file. */
  lemma TmpIsNoSession(name: Name, sid: SessionId)
    ensures TmpName(name) != SafeName(sid)
  {
    SafeNameIsAllowed(sid);
    assert TmpName(name)[0] == '.' && '.' in TmpName(name);
  }

  /** Ids made of allowed characters are told apart from each other; an id with any other
      character shares the file of one of them, as "a.b" does with "ab". */
  lemma NamesAreDistinctIffAllowed(a: SessionId)
    ensures (forall c :: c in a ==> Allowed(c)) <==>
            forall b :: (forall c :: c in b ==> Allowed(c)) && SafeName(a) == SafeName(b) ==> a == b
  {
    SafeNameIsAllowed(a);
    SafeNameIsAllowed(SafeName(a));
    if forall c :: c in a ==> Allowed(c) {
      forall b | (forall c :: c in b ==> Allowed(c)) && SafeName(a) == SafeName(b)
        ensures a == b
      {
        SafeNameIsAllowed(b);
      }
    }
  }

  // ---------------------------------------------------------------- reading

  function Load(files: Directory, sid: SessionId): Option<nat> {
    if SafeName(sid) in files then Parse(Trim(files[SafeName(sid)])) else None
  }

  /** The numbers found by a scan of the whole directory. */
  function Scan(files: Directory): map<Name, nat> {
    map name | name in files && name != "" && Parse(Trim(files[name])).Some? :: Parse(Trim(files[name])).value
  }

  // ---------------------------------------------------------------- a save, cut off anywhere

  /** How far a save gets: not to opening the temporary file, to writing some of it, to
      removing the old file, or to the end. */
  datatype Point = BeforeOpen | Writing(written: nat) | Removed | Renamed

  function AtPoint(files: Directory, name: Name, contents: string, point: Point): Directory {
    match point
    case BeforeOpen => files
    case Writing(n) => files[TmpName(name) := contents[..if n <= |contents| then n else |contents|]]
    case Removed => files[TmpName(name) := contents] - {name}
    case Renamed => (files - {TmpName(name)})[name := contents]
  }

  class Store {
    var files: Directory

    constructor ()
      ensures files == map[]
    {
      files := map[];
    }

    /** Saves unless cut off at `point`; an id without any allowed character has no file, and
        saving it fails. */
    method Save(sid: SessionId, sequence: U64, point: Point) returns (ok: bool)
      modifies this
      ensures ok <==> point == Renamed && SafeName(sid) != ""
      ensures files ==
                  if SafeName(sid) == "" then old(files)
                  else AtPoint(old(files), SafeName(sid), Print(sequence), point)
    {
      var name, contents := SafeName(sid), Print(sequence);
      if name == "" || point == BeforeOpen {
        return false;
      }
      var tmp := TmpName(name);
      assert tmp != name by {
        TmpIsNoSession(name, sid);
      }
      files := files[tmp := ""];
      var written := 0;
      while written < |contents|
        invariant 0 <= written <= |contents|
        invariant point.Writing? ==> written <= point.written
        invariant files == old(files)[tmp := contents[..written]]
      {
        if point == Writing(written) {
          return false;
        }
        files := files[tmp := contents[..written + 1]];
        written := written + 1;
      }
      if point.Writing? {
        return false;
      }
      assert contents[..|contents|] == contents;
      if name in files {
        files := files - {name};
      }
      if point == Removed {
        return false;
      }
      var renamed := files[tmp];
      files := (files - {tmp})[name := renamed];
      ok := true;
    }

    method Remove(sid: SessionId)
      modifies this
      ensures files == old(files) - {SafeName(sid)}
    {
      if SafeName(sid) in files {
        files := files - {SafeName(sid)};
      }
    }

    /** Reads the directory's entries in whatever order they are listed. */
    method LoadAll(listing: seq<Name>) returns (out: map<Name, nat>)
      requires forall name :: name in listing <==> name in files
      ensures out == Scan(files)
    {
      out := map[];
      for i := 0 to |listing|
        invariant forall name :: name in out <==>
                    name in listing[..i] && name != "" && Parse(Trim(files[name])).Some?
        invariant forall name :: name in out ==> Parse(Trim(files[name])) == Some(out[name])
      {
        var name := listing[i];
        assert listing[..i + 1] == listing[..i] + [name] && name in files;
        if name == "" {
          continue;
        }
        var n := Parse(Trim(files[name]));
        if n.Some? {
          out := out[name := n.value];
        }
      }
      assert listing[..|listing|] == listing;
    }
  }

  /** At every point where a save can be cut off the session reads back as before, as nothing,
      or as the new number, and every other session reads back as before. */
  lemma CutOffSave(files: Directory, sid: SessionId, n: U64, point: Point, other: SessionId)
    ensures var after := AtPoint(files, SafeName(sid), Print(n), point);
            if SafeName(other) != SafeName(sid) then Load(after, other) == Load(files, other)
            else match point
              case Renamed => Load(after, other) == Some(n)
              case Removed => Load(after, other) == None
              case _ => Load(after, other) == Load(files, other)
  {
    TmpIsNoSession(SafeName(sid), other);
    PrintedIsParsed(n);
  }

  /** The scan at start agrees with reading each session's file. */
  lemma ScanIsLoad(files: Directory, sid: SessionId)
    requires SafeName(sid) != ""
    ensures SafeName(sid) in Scan(files) <==> Load(files, sid).Some?
    ensures SafeName(sid) in Scan(files) ==> Scan(files)[SafeName(sid)] == Load(files, sid).value
  {
  }

  // ---------------------------------------------------------------- left-over temporary files

  lemma {:induction false} PrefixIsNumber(s: string, k: nat)
    requires 0 < k <= |s| && (forall c :: c in s ==> IsDigit(c)) && Value(s) <= U64_MAX
    ensures (forall c :: c in s[..k] ==> IsDigit(c)) && Value(s[..k]) <= Value(s)
    ensures Parse(Trim(s[..k])) == Some(Value(s[..k]))
    decreases |s|
  {
    if k == |s| {
      assert s[..k] == s;
      assert IsDigit(s[0]) && IsDigit(s[|s| - 1]);
      TrimUnpadded(s);
    } else {
      assert IsDigit(s[|s| - 1]);
      PrefixIsNumber(s[..|s| - 1], k);
      assert s[..|s| - 1][..k] == s[..k];
    }
  }

  /** Where a save leaves a temporary file that the scan reads: cut off after its first byte
      and before the rename. */
  predicate LeavesPhantom(point: Point) {
    match point
    case Writing(k) => k > 0
    case Removed => true
    case _ => false
  }

  /** One save: exactly when the scan afterwards takes the temporary file for a session, and
      with which number; a partly written file gives a truncated one. */
  lemma PhantomAfterSaveIff(files: Directory, sid: SessionId, n: U64, point: Point)
    requires SafeName(sid) != ""
    ensures var after, tmp := AtPoint(files, SafeName(sid), Print(n), point), TmpName(SafeName(sid));
            && (tmp in Scan(after) <==> LeavesPhantom(point) || (point.BeforeOpen? && tmp in Scan(files)))
            && (LeavesPhantom(point) ==>
                  Some(Scan(after)[tmp]) == Parse(
                          if point.Writing? && point.written < |Print(n)| then Print(n)[..point.written] else Print(n)))
  {
    var name, contents := SafeName(sid), Print(n);
    TmpIsNoSession(name, sid);
    PrintIsDigits(n);
    PrefixIsNumber(contents, |contents|);
    assert contents[..|contents|] == contents;
    if point.Writing? {
      if 0 < point.written < |contents| {
        PrefixIsNumber(contents, point.written);
        ParsePrefix(contents, point.written);
      } else if point.written == 0 {
        assert contents[..0] == "" && Parse(Trim("")) == None;
      }
    }
    ParsePrefix(contents, |contents|);
  }

  lemma ParsePrefix(s: string, k: nat)
    requires 0 < k <= |s| && forall c :: c in s ==> IsDigit(c)
    ensures Parse(Trim(s[..k])) == Parse(s[..k])
  {
    var t := s[..k];
    assert IsDigit(t[0]) && IsDigit(t[|t| - 1]) by {
      assert t[0] == s[0] && t[|t| - 1] == s[k - 1];
    }
    TrimUnpadded(t);
  }

  lemma SafeNameOfTmp(sid: SessionId)
    ensures SafeName(TmpName(SafeName(sid))) == SafeName(sid) + SafeName(".tmp")
  {
    var name := SafeName(sid);
    SafeNameIsAllowed(sid);
    SafeNameIsAllowed(name);
    assert TmpName(name)[1..] == name + ".tmp";
    SafeNameConcat(name, ".tmp");
  }

  lemma SafeNameOfSuffix()
    ensures SafeName(".tmp") == "tmp"
  {
    assert ".tmp"[1..] == "tmp";
    SafeNameIsAllowed("tmp");
  }

  /** Removing a phantom session leaves its temporary file in place and deletes the file of
      another name. */
  lemma PhantomIsNotRemoved(files: Directory, sid: SessionId)
    requires TmpName(SafeName(sid)) in Scan(files)
    ensures var tmp := TmpName(SafeName(sid));
            tmp in Scan(files - {SafeName(tmp)}) && SafeName(tmp) == SafeName(sid) + "tmp"
  {
    var tmp := TmpName(SafeName(sid));
    TmpIsNoSession(SafeName(sid), tmp);
    SafeNameOfTmp(sid);
    SafeNameOfSuffix();
    var after := files - {SafeName(tmp)};
    assert tmp in after && after[tmp] == files[tmp];
  }

  lemma {:induction false} SafeNameConcat(a: string, b: string)
    ensures SafeName(a + b) == SafeName(a) + SafeName(b)
  {
    if |a| == 0 {
      assert a + b == b;
    } else {
      assert (a + b)[1..] == a[1..] + b;
      SafeNameConcat(a[1..], b);
    }
  }

  // ---------------------------------------------------------------- whole histories

  datatype Op = Save(sid: SessionId, sequence: U64, point: Point) | Remove(sid: SessionId)

  function Do(files: Directory, op: Op): Directory {
    match op
    case Save(sid, n, point) => if SafeName(sid) == "" then files else AtPoint(files, SafeName(sid), Print(n), point)
    case Remove(sid) => files - {SafeName(sid)}
  }

  function History(ops: seq<Op>): Directory {
    if |ops| == 0 then map[] else Do(History(ops[..|ops| - 1]), ops[|ops| - 1])
  }

  ghost predicate SavedIn(ops: seq<Op>, name: Name, n: nat) {
    exists k :: 0 <= k < |ops| && ops[k].Save? && SafeName(ops[k].sid) == name && ops[k].sequence == n
  }

  lemma {:induction false} FilesHoldSavedNumbers(ops: seq<Op>, sid: SessionId) returns (n: nat)
    requires SafeName(sid) in History(ops)
    ensures SavedIn(ops, SafeName(sid), n) && History(ops)[SafeName(sid)] == Print(n)
  {
    var k, name := |ops| - 1, SafeName(sid);
    var before, op := History(ops[..k]), ops[k];
    if op.Save? {
      TmpIsNoSession(SafeName(op.sid), sid);
    }
    if op.Save? && op.point.Renamed? && SafeName(op.sid) == name && name != "" {
      n := op.sequence;
    } else {
      assert name in before && History(ops)[name] == before[name];
      n := FilesHoldSavedNumbers(ops[..k], sid);
      var j :| 0 <= j < k && ops[..k][j].Save? && SafeName(ops[..k][j].sid) == name && ops[..k][j].sequence == n;
      assert ops[j] == ops[..k][j];
    }
  }

  /** Never garbled: after any history of saves, each cut off anywhere, and removals, a session
      reads back as nothing or as a number that was saved for it. */
  lemma NeverGarbled(ops: seq<Op>, sid: SessionId)
    ensures SafeName(sid) in History(ops) <==> Load(History(ops), sid).Some?
    ensures Load(History(ops), sid).Some? ==> SavedIn(ops, SafeName(sid), Load(History(ops), sid).value)
  {
    if SafeName(sid) in History(ops) {
      var n := FilesHoldSavedNumbers(ops, sid);
      PrintedIsParsed(n);
    }
  }

  // ---------------------------------------------------------------- phantoms over histories

  /** The last save for a name that got as far as opening its temporary file. */
  function LastOpened(ops: seq<Op>, name: Name): Option<Point> {
    if |ops| == 0 then None
    else
      var op := ops[|ops| - 1];
      if op.Save? && SafeName(op.sid) == name && name != "" && !op.point.BeforeOpen? then Some(op.point)
      else LastOpened(ops[..|ops| - 1], name)
  }

  predicate Phantom(ops: seq<Op>, name: Name) {
    LastOpened(ops, name).Some? && LeavesPhantom(LastOpened(ops, name).value)
  }

  lemma TmpNamesDiffer(a: Name, b: Name)
    ensures TmpName(a) == TmpName(b) <==> a == b
  {
    assert TmpName(a)[1..][..|TmpName(a)| - 5] == a && TmpName(b)[1..][..|TmpName(b)| - 5] == b;
  }

  /** No step but a save of the name itself touches its temporary file. */
  lemma OthersKeepTmp(files: Directory, op: Op, name: Name)
    requires op.Save? ==> SafeName(op.sid) != name || name == "" || op.point.BeforeOpen?
    ensures var tmp := TmpName(name);
            (tmp in Do(files, op) <==> tmp in files) && (tmp in files ==> Do(files, op)[tmp] == files[tmp])
  {
    TmpIsNoSession(name, op.sid);
    if op.Save? {
      TmpNamesDiffer(name, SafeName(op.sid));
    }
  }

  /** Over every history: a name has a phantom if and only if the last save for it that opened
      its temporary file was cut off after the first byte and before the rename. */
  lemma {:induction false} PhantomIff(ops: seq<Op>, sid: SessionId)
    ensures TmpName(SafeName(sid)) in Scan(History(ops)) <==> Phantom(ops, SafeName(sid))
  {
    if |ops| > 0 {
      var rest, op, name := ops[..|ops| - 1], ops[|ops| - 1], SafeName(sid);
      PhantomIff(rest, sid);
      if op.Save? && SafeName(op.sid) == name && name != "" && !op.point.BeforeOpen? {
        PhantomAfterSaveIff(History(rest), op.sid, op.sequence, op.point);
      } else {
        OthersKeepTmp(History(rest), op, name);
      }
    }
  }

  /** Every file is a session's own or the temporary file of one that was saved. */
  lemma {:induction false} FilesAre(ops: seq<Op>, key: Name)
    requires key in History(ops)
    ensures (key != "" && key == SafeName(key))
            || exists sid: SessionId :: SafeName(sid) != "" && key == TmpName(SafeName(sid))
  {
    var rest, op := ops[..|ops| - 1], ops[|ops| - 1];
    if key in History(rest) {
      FilesAre(rest, key);
    } else {
      SafeNameIsAllowed(op.sid);
      SafeNameIsAllowed(SafeName(op.sid));
      assert key == SafeName(op.sid) || key == TmpName(SafeName(op.sid));
    }
  }

  /** The whole scan after any history: the sessions, each with the number its file reads back
      as, and the phantoms; nothing else. */
  lemma ScanIsSessionsAndPhantoms(ops: seq<Op>, key: Name)
    ensures key in Scan(History(ops)) <==>
              || (key != "" && key == SafeName(key) && Load(History(ops), key).Some?)
              || exists sid: SessionId :: key == TmpName(SafeName(sid)) && Phantom(ops, SafeName(sid))
    ensures key in Scan(History(ops)) && key == SafeName(key) ==>
              Scan(History(ops))[key] == Load(History(ops), key).value
  {
    var files := History(ops);
    if key in Scan(files) {
      FilesAre(ops, key);
      if key == SafeName(key) {
        ScanIsLoad(files, key);
      } else {
        var sid: SessionId :| SafeName(sid) != "" && key == TmpName(SafeName(sid));
        PhantomIff(ops, sid);
      }
    }
    if key != "" && key == SafeName(key) {
      ScanIsLoad(files, key);
    }
    if sid: SessionId :| key == TmpName(SafeName(sid)) && Phantom(ops, SafeName(sid)) {
      PhantomIff(ops, sid);
    }
  }

  /** So the scan yields sessions only if and only if no session has a phantom. */
  lemma ScansOnlySessionsIff(ops: seq<Op>)
    ensures (forall key :: key in Scan(History(ops)) ==> key == SafeName(key)) <==>
            (forall sid: SessionId :: !Phantom(ops, SafeName(sid)))
  {
    if forall sid: SessionId :: !Phantom(ops, SafeName(sid)) {
      forall key | key in Scan(History(ops))
        ensures key == SafeName(key)
      {
        ScanIsSessionsAndPhantoms(ops, key);
      }
    } else {
      var sid: SessionId :| Phantom(ops, SafeName(sid));
      PhantomIff(ops, sid);
      TmpIsNoSession(SafeName(sid), TmpName(SafeName(sid)));
    }
  }
}
