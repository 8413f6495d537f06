/** The remote directory of a backup job (app/core/remote_paths.py) and the check on an
    operator's override (app/schemas/backup_job.py). */
module RemotePaths {
  import opened Wrappers

  datatype BackupType = FULL | DIFFERENTIAL | TRANSACTION_LOG | CUSTOM

  function DirCode(t: BackupType): string {
    match t
    case FULL => "FULL"
    case DIFFERENTIAL => "DIFF"
    case TRANSACTION_LOG => "TLOG"
    case CUSTOM => "CUSTOM"
  }

  // ---------------------------------------------------------------- strings

  /** What Python's str.strip() removes. */
  predicate Space(c: char) {
    var n := c as int;
    9 <= n <= 13 || 28 <= n <= 32 || n == 0x85 || n == 0xA0 || n == 0x1680 || 0x2000 <= n <= 0x200A
    || n == 0x2028 || n == 0x2029 || n == 0x202F || n == 0x205F || n == 0x3000
  }

  function StripLeft(s: string): string { if s != "" && Space(s[0]) then StripLeft(s[1..]) else s }

  function StripRight(s: string): string { if s != "" && Space(s[|s| - 1]) then StripRight(s[..|s| - 1]) else s }

  function Strip(s: string): string { StripRight(StripLeft(s)) }

  predicate Safe(c: char) {
    'A' <= c <= 'Z' || 'a' <= c <= 'z' || '0' <= c <= '9' || c == '.' || c == '_' || c == '-'
  }

  predicate AllSafe(s: string) { forall i :: 0 <= i < |s| ==> Safe(s[i]) }

  /** re.sub of every unsafe character by an underscore. */
  function Substitute(s: string): (r: string)
    ensures |r| == |s| && AllSafe(r)
    ensures forall i :: 0 <= i < |s| ==> r[i] == if Safe(s[i]) then s[i] else '_'
  {
    seq(|s|, i requires 0 <= i < |s| => if Safe(s[i]) then s[i] else '_')
  }

  predicate AllDots(s: string) { s != "" && forall i :: 0 <= i < |s| ==> s[i] == '.' }

  /** str.split on one separator. */
  function Split(s: string, sep: char): (parts: seq<string>)
    ensures parts != []
  {
    if s == "" then [""]
    else if s[0] == sep then [""] + Split(s[1..], sep)
    else var rest := Split(s[1..], sep); [[s[0]] + rest[0]] + rest[1..]
  }

  function Replace(s: string, from: char, to: char): (r: string)
    ensures |r| == |s|
  {
    seq(|s|, i requires 0 <= i < |s| => if s[i] == from then to else s[i])
  }

  /** Decimal digits of an id. */
  function Digits(n: nat): (d: string)
    ensures d != "" && forall i :: 0 <= i < |d| ==> '0' <= d[i] <= '9'
  {
    if n < 10 then [('0' as int + n) as char] else Digits(n / 10) + [('0' as int + n % 10) as char]
  }

  // ---------------------------------------------------------------- the directory

  const UNNAMED_SERVER := "_unnamed_server"
  const UNNAMED_JOB := "_unnamed_job"

  function Sanitize(raw: string, fallback: string): string {
    var sanitized := Substitute(Strip(raw));
    if sanitized == "" || AllDots(sanitized) then fallback else sanitized
  }

  function JobSegment(jobName: string, jobId: nat): string {
    Sanitize(jobName, UNNAMED_JOB) + "_" + Digits(jobId)
  }

  function Computed(serverName: string, jobName: string, jobId: nat, t: BackupType): string {
    Sanitize(serverName, UNNAMED_SERVER) + "/" + JobSegment(jobName, jobId) + "/" + DirCode(t) + "/"
  }

  function Resolve(serverName: string, jobName: string, jobId: nat, t: BackupType, literal: Option<string>): string {
    if literal.Some? then literal.value else Computed(serverName, jobName, jobId, t)
  }

  datatype OverrideError = Empty | OuterWhitespace | Traversal

  function CheckOverride(value: Option<string>): Option<OverrideError> {
    if value == None then None
    else if value.value == "" then Some(Empty)
    else if value.value != Strip(value.value) then Some(OuterWhitespace)
    else if ".." in Split(Replace(value.value, '\\', '/'), '/') then Some(Traversal)
    else None
  }

  // ---------------------------------------------------------------- sanitising

  /** A name that can stand as a path segment as it is. */
  predicate SafeSegment(s: string) { s != "" && AllSafe(s) && !AllDots(s) }

  /** Stripping removes the spaces around a name and nothing else. */
  lemma {:induction false} StripLeftMeans(s: string) returns (i: nat)
    ensures i <= |s| && StripLeft(s) == s[i..] && (forall k: nat | k < i :: Space(s[k])) && (i < |s| ==> !Space(s[i]))
  {
    i := 0;
    if s != "" && Space(s[0]) {
      var k := StripLeftMeans(s[1..]);
      assert s[1..][k..] == s[k + 1..];
      i := k + 1;
    }
  }

  lemma {:induction false} StripRightMeans(s: string) returns (j: nat)
    ensures j <= |s| && StripRight(s) == s[..j]
    ensures (forall k: nat | j <= k < |s| :: Space(s[k])) && (j > 0 ==> !Space(s[j - 1]))
  {
    j := |s|;
    if s != "" && Space(s[|s| - 1]) {
      j := StripRightMeans(s[..|s| - 1]);
      assert s[..|s| - 1][..j] == s[..j];
    }
  }

  lemma StripMeans(s: string) returns (i: nat, j: nat)
    ensures i <= j <= |s| && Strip(s) == s[i..j]
    ensures forall k: nat | k < i || j <= k < |s| :: Space(s[k])
    ensures i < j ==> !Space(s[i]) && !Space(s[j - 1])
  {
    i := StripLeftMeans(s);
    var n := StripRightMeans(s[i..]);
    j := i + n;
    assert s[i..][..n] == s[i..j];
    forall k: nat | j <= k < |s|
      ensures Space(s[k])
    {
      assert s[i..][k - i] == s[k];
    }
    assert n > 0 ==> s[i..][n - 1] == s[j - 1];
  }

  /** A name of dots only, or of nothing, gives way to the fallback; of any other every unsafe
      character becomes an underscore. */
  lemma SanitizeMeans(raw: string, fallback: string)
    ensures
      var s, r := Strip(raw), Sanitize(raw, fallback);
      if forall i :: 0 <= i < |s| ==> s[i] == '.' then r == fallback
      else |r| == |s| && forall i :: 0 <= i < |s| ==> r[i] == if Safe(s[i]) then s[i] else '_'
  {
    var s := Strip(raw);
    var t := Substitute(s);
    assert forall i :: 0 <= i < |s| ==> (t[i] == '.' <==> s[i] == '.');
  }

  lemma SafeStripsToItself(s: string)
    requires AllSafe(s)
    ensures Strip(s) == s
  {
  }

  lemma SanitizeIsSafe(raw: string, fallback: string)
    requires SafeSegment(fallback)
    ensures SafeSegment(Sanitize(raw, fallback))
  {
  }

  /** Sanitising leaves exactly the safe segments alone. */
  lemma FixedPointsAreSafeSegments(raw: string, fallback: string)
    requires SafeSegment(fallback)
    ensures Sanitize(raw, fallback) == raw <==> SafeSegment(raw)
  {
    if SafeSegment(raw) {
      SafeStripsToItself(raw);
      assert Substitute(raw) == raw;
    }
    SanitizeIsSafe(raw, fallback);
  }

  lemma SanitizeIsIdempotent(raw: string, fallback: string)
    requires SafeSegment(fallback)
    ensures Sanitize(Sanitize(raw, fallback), fallback) == Sanitize(raw, fallback)
  {
    SanitizeIsSafe(raw, fallback);
    FixedPointsAreSafeSegments(Sanitize(raw, fallback), fallback);
  }

  lemma FallbacksAreSafe()
    ensures SafeSegment(UNNAMED_SERVER) && SafeSegment(UNNAMED_JOB)
  {
    assert UNNAMED_SERVER[0] == '_' && UNNAMED_JOB[0] == '_';
  }

  // ---------------------------------------------------------------- segments

  predicate Lacks(s: string, c: char) { forall i :: 0 <= i < |s| ==> s[i] != c }

  lemma {:induction false} SplitFirst(a: string, rest: string, sep: char)
    requires Lacks(a, sep)
    ensures Split(a + [sep] + rest, sep) == [a] + Split(rest, sep)
  {
    var s := a + [sep] + rest;
    if a == "" {
      assert s[1..] == rest;
    } else {
      SplitFirst(a[1..], rest, sep);
      assert s[1..] == a[1..] + [sep] + rest;
      assert [s[0]] + a[1..] == a;
    }
  }

  /** s[i..j] is one of the pieces between the separators. */
  ghost predicate Piece(s: string, sep: char, i: nat, j: nat) {
    && i <= j <= |s| && Lacks(s[i..j], sep)
    && (i == 0 || s[i - 1] == sep) && (j == |s| || s[j] == sep)
  }

  ghost predicate IsPiece(s: string, sep: char, t: string) {
    exists i: nat, j: nat :: Piece(s, sep, i, j) && s[i..j] == t
  }

  lemma FirstSeparator(s: string, sep: char) returns (n: nat)
    ensures n <= |s| && Lacks(s[..n], sep) && (n < |s| ==> s[n] == sep)
  {
    n := 0;
    while n < |s| && s[n] != sep
      invariant n <= |s| && Lacks(s[..n], sep)
    {
      n := n + 1;
    }
  }

  lemma {:induction false} SplitAlone(s: string, sep: char)
    requires Lacks(s, sep)
    ensures Split(s, sep) == [s]
  {
    if s != "" {
      SplitAlone(s[1..], sep);
      assert [s[0]] + s[1..] == s;
    }
  }

  lemma OnlyPiece(s: string, sep: char, t: string)
    requires Lacks(s, sep)
    ensures IsPiece(s, sep, t) <==> t == s
  {
    assert s[0..|s|] == s;
    assert Piece(s, sep, 0, |s|);
  }

  lemma PiecesAfter(s: string, sep: char, n: nat, t: string)
    requires n < |s| && Lacks(s[..n], sep) && s[n] == sep
    ensures IsPiece(s, sep, t) <==> t == s[..n] || IsPiece(s[n + 1..], sep, t)
  {
    var rest := s[n + 1..];
    if t == s[..n] {
      assert Piece(s, sep, 0, n) && s[0..n] == s[..n];
    }
    if IsPiece(rest, sep, t) {
      var i: nat, j: nat :| Piece(rest, sep, i, j) && rest[i..j] == t;
      assert rest[i..j] == s[n + 1 + i..n + 1 + j];
      assert Piece(s, sep, n + 1 + i, n + 1 + j);
    }
    if IsPiece(s, sep, t) {
      var i: nat, j: nat :| Piece(s, sep, i, j) && s[i..j] == t;
      LaterOrFirst(s, sep, n, i, j);
    }
  }

  lemma LacksAt(s: string, i: nat, j: nat, sep: char)
    requires i <= j <= |s| && Lacks(s[i..j], sep)
    ensures forall k: nat | i <= k < j :: s[k] != sep
  {
    assert forall k: nat | i <= k < j :: s[i..j][k - i] == s[k];
  }

  lemma LaterOrFirst(s: string, sep: char, n: nat, i: nat, j: nat)
    requires n < |s| && Lacks(s[..n], sep) && s[n] == sep && Piece(s, sep, i, j)
    ensures s[i..j] == s[..n] || IsPiece(s[n + 1..], sep, s[i..j])
  {
    LacksAt(s, 0, n, sep);
    LacksAt(s, i, j, sep);
    assert s[0..n] == s[..n];
    if i > 0 {
      assert s[n + 1..][i - n - 1..j - n - 1] == s[i..j];
      assert Piece(s[n + 1..], sep, i - n - 1, j - n - 1);
    }
  }

  /** Splitting gives exactly the pieces between the separators. */
  lemma {:induction false} SplitMeans(s: string, sep: char, t: string)
    ensures t in Split(s, sep) <==> IsPiece(s, sep, t)
    decreases |s|
  {
    var n := FirstSeparator(s, sep);
    if n == |s| {
      assert s[..n] == s;
      SplitAlone(s, sep);
      OnlyPiece(s, sep, t);
    } else {
      assert s == s[..n] + [sep] + s[n + 1..];
      SplitFirst(s[..n], s[n + 1..], sep);
      SplitMeans(s[n + 1..], sep, t);
      PiecesAfter(s, sep, n, t);
    }
  }

  lemma DirCodesAreSafe(t: BackupType)
    ensures SafeSegment(DirCode(t))
  {
    assert DirCode(t)[0] != '.';
  }

  lemma SafeJobSegment(jobName: string, jobId: nat)
    ensures SafeSegment(JobSegment(jobName, jobId))
  {
    FallbacksAreSafe();
    SanitizeIsSafe(jobName, UNNAMED_JOB);
    var name := Sanitize(jobName, UNNAMED_JOB);
    assert JobSegment(jobName, jobId)[|name|] == '_';
  }

  predicate IsCode(t: BackupType, code: string) {
    && (t == FULL ==> code == "FULL")
    && (t == DIFFERENTIAL ==> code == "DIFF")
    && (t == TRANSACTION_LOG ==> code == "TLOG")
    && (t == CUSTOM ==> code == "CUSTOM")
  }

  lemma FallbackNames()
    ensures UNNAMED_SERVER == "_unnamed_server" && UNNAMED_JOB == "_unnamed_job"
  {
  }

  /** A computed directory has exactly three segments -- the server, the job with its id, and the
      code of the backup type -- each non-empty, made of safe characters only and neither "."
      nor "..", then the closing slash. */
  lemma ComputedSegments(serverName: string, jobName: string, jobId: nat, t: BackupType)
    ensures
      var server := Sanitize(serverName, "_unnamed_server");
      var job := Sanitize(jobName, "_unnamed_job") + "_" + Digits(jobId);
      && Split(Computed(serverName, jobName, jobId, t), '/') == [server, job, DirCode(t), ""]
      && IsCode(t, DirCode(t))
      && SafeSegment(server) && SafeSegment(job) && SafeSegment(DirCode(t))
      && "." !in [server, job, DirCode(t)] && ".." !in [server, job, DirCode(t)]
  {
    FallbackNames();
    NamedSegments(serverName, jobName, jobId, t);
  }

  lemma NamedSegments(serverName: string, jobName: string, jobId: nat, t: BackupType)
    ensures
      var server, job := Sanitize(serverName, UNNAMED_SERVER), JobSegment(jobName, jobId);
      && Split(Computed(serverName, jobName, jobId, t), '/') == [server, job, DirCode(t), ""]
      && SafeSegment(server) && SafeSegment(job) && SafeSegment(DirCode(t))
      && "." !in [server, job, DirCode(t)] && ".." !in [server, job, DirCode(t)]
  {
    FallbacksAreSafe();
    SanitizeIsSafe(serverName, UNNAMED_SERVER);
    SafeJobSegment(jobName, jobId);
    DirCodesAreSafe(t);
    SplitThree(Sanitize(serverName, UNNAMED_SERVER), JobSegment(jobName, jobId), DirCode(t));
    NotOnlyDots(Sanitize(serverName, UNNAMED_SERVER));
    NotOnlyDots(JobSegment(jobName, jobId));
    NotOnlyDots(DirCode(t));
  }

  lemma NotOnlyDots(s: string)
    requires SafeSegment(s)
    ensures s != "." && s != ".."
  {
    assert AllDots(".") && AllDots("..");
  }

  lemma SplitThree(a: string, b: string, c: string)
    requires SafeSegment(a) && SafeSegment(b) && SafeSegment(c)
    ensures Split(a + "/" + b + "/" + c + "/", '/') == [a, b, c, ""]
  {
    var tail := c + ['/'] + "";
    SplitFirst(c, "", '/');
    SplitFirst(b, tail, '/');
    SplitFirst(a, b + ['/'] + tail, '/');
    assert a + "/" + b + "/" + c + "/" == a + ['/'] + (b + ['/'] + tail);
  }

  /** An override is taken literally, whatever server and job are called. */
  lemma OverrideWins(serverName: string, jobName: string, jobId: nat, t: BackupType, literal: Option<string>)
    ensures literal.Some? ==> Resolve(serverName, jobName, jobId, t, literal) == literal.value
    ensures literal == None ==>
              Resolve(serverName, jobName, jobId, t, literal) == Computed(serverName, jobName, jobId, t)
  {
  }

  // ---------------------------------------------------------------- injectivity

  lemma {:induction false} DigitsInjective(m: nat, n: nat)
    requires Digits(m) == Digits(n)
    ensures m == n
  {
    var a, b := Digits(m), Digits(n);
    assert a[|a| - 1] as int == '0' as int + m % 10;
    assert b[|b| - 1] as int == '0' as int + n % 10;
    if m >= 10 && n >= 10 {
      assert a[..|a| - 1] == Digits(m / 10) && b[..|b| - 1] == Digits(n / 10);
      DigitsInjective(m / 10, n / 10);
    } else {
      assert m >= 10 ==> |a| >= 2;
      assert n >= 10 ==> |b| >= 2;
    }
  }

  /** The number a string of decimal digits stands for. */
  function Number(d: string): int {
    if d == "" then 0 else 10 * Number(d[..|d| - 1]) + (d[|d| - 1] as int - '0' as int)
  }

  /** They are the digits of the number itself, without a leading zero. */
  lemma {:induction false} DigitsMean(n: nat)
    ensures Number(Digits(n)) == n && (n > 0 ==> Digits(n)[0] != '0')
  {
    var d := Digits(n);
    if n < 10 {
      assert d[..0] == "";
    } else {
      DigitsMean(n / 10);
      assert d[..|d| - 1] == Digits(n / 10);
    }
  }

  lemma DirCodesDiffer(a: BackupType, b: BackupType)
    ensures DirCode(a) == DirCode(b) ==> a == b
  {
    assert a != b ==> DirCode(a)[0] != DirCode(b)[0];
  }

  /** What follows the last underscore is determined by the whole. */
  lemma LastUnderscore(a: string, x: string, b: string, y: string)
    requires Lacks(x, '_') && Lacks(y, '_') && a + "_" + x == b + "_" + y
    ensures a == b && x == y
  {
    var s := a + "_" + x;
    var t := b + "_" + y;
    assert s[|a|] == '_' && t[|b|] == '_';
    assert forall i :: |a| < i < |s| ==> s[i] == x[i - |a| - 1];
    assert forall i :: |b| < i < |t| ==> t[i] == y[i - |b| - 1];
    assert |a| == |b|;
    assert a == s[..|a|] && b == t[..|b|] && x == s[|a| + 1..] && y == t[|b| + 1..];
  }

  /** Two computed directories are the same exactly when job id, backup type and both
      sanitised names are: whatever the names, different jobs or different types never
      share a directory. */
  lemma ComputedIsInjective(serverA: string, jobA: string, idA: nat, typeA: BackupType,
                            serverB: string, jobB: string, idB: nat, typeB: BackupType)
    ensures Computed(serverA, jobA, idA, typeA) == Computed(serverB, jobB, idB, typeB) <==>
            idA == idB && typeA == typeB
            && Sanitize(serverA, UNNAMED_SERVER) == Sanitize(serverB, UNNAMED_SERVER)
            && Sanitize(jobA, UNNAMED_JOB) == Sanitize(jobB, UNNAMED_JOB)
  {
    if Computed(serverA, jobA, idA, typeA) == Computed(serverB, jobB, idB, typeB) {
      NamedSegments(serverA, jobA, idA, typeA);
      NamedSegments(serverB, jobB, idB, typeB);
      var a := Split(Computed(serverA, jobA, idA, typeA), '/');
      var b := Split(Computed(serverB, jobB, idB, typeB), '/');
      assert a[0] == b[0] && a[1] == b[1] && a[2] == b[2];
      LastUnderscore(Sanitize(jobA, UNNAMED_JOB), Digits(idA), Sanitize(jobB, UNNAMED_JOB), Digits(idB));
      DigitsInjective(idA, idB);
      DirCodesDiffer(typeA, typeB);
    }
  }

  // ---------------------------------------------------------------- what an override may be

  predicate Slash(c: char) { c == '/' || c == '\\' }

  /** Two dots standing alone between slashes of either kind. */
  predicate ClimbsAt(s: string, i: nat) {
    && i + 2 <= |s| && s[i] == '.' && s[i + 1] == '.'
    && (i == 0 || Slash(s[i - 1])) && (i + 2 == |s| || Slash(s[i + 2]))
  }

  predicate Climbs(s: string) { exists i: nat :: i < |s| && ClimbsAt(s, i) }

  lemma ClimbsIsPiece(s: string)
    ensures Climbs(s) <==> IsPiece(Replace(s, '\\', '/'), '/', "..")
  {
    var r := Replace(s, '\\', '/');
    if Climbs(s) {
      var i: nat :| i < |s| && ClimbsAt(s, i);
      assert r[i..i + 2] == "..";
      assert Piece(r, '/', i, i + 2);
    }
    if IsPiece(r, '/', "..") {
      var i: nat, j: nat :| Piece(r, '/', i, j) && r[i..j] == "..";
      assert j == i + 2 && r[i..j][0] == '.' && r[i..j][1] == '.';
      assert r[i] == '.' && r[i + 1] == '.';
      assert ClimbsAt(s, i);
    }
  }

  /** No override, or one that is not empty, has no space at either end and does not climb. */
  lemma OverrideMeans(value: Option<string>)
    ensures
      CheckOverride(value) ==
      if value == None then None
      else if value.value == "" then Some(Empty)
      else if Space(value.value[0]) || Space(value.value[|value.value| - 1]) then Some(OuterWhitespace)
      else if Climbs(value.value) then Some(Traversal)
      else None
  {
    if value.Some? && value.value != "" {
      var s := value.value;
      var i, j := StripMeans(s);
      assert s[0..|s|] == s;
      assert Strip(s) == s <==> !Space(s[0]) && !Space(s[|s| - 1]);
      ClimbsIsPiece(s);
      SplitMeans(Replace(s, '\\', '/'), '/', "..");
    }
  }

  // ---------------------------------------------------------------- the computed path as an override

  /** Every computed directory passes the override check, and is a fixed point when used as
      the override. */
  lemma ComputedPassesOverrideCheck(serverName: string, jobName: string, jobId: nat, t: BackupType)
    ensures CheckOverride(Some(Computed(serverName, jobName, jobId, t))) == None
    ensures Resolve(serverName, jobName, jobId, t, Some(Computed(serverName, jobName, jobId, t))) ==
            Resolve(serverName, jobName, jobId, t, None)
  {
    var path := Computed(serverName, jobName, jobId, t);
    NamedSegments(serverName, jobName, jobId, t);
    assert path[|path| - 1] == '/' && Safe(path[0]);
    assert Strip(path) == path;
    assert forall i :: 0 <= i < |path| ==> Safe(path[i]) || path[i] == '/';
    assert Replace(path, '\\', '/') == path;
  }

  const OVERRIDE_LIMIT: nat := 500

  /** The same endpoint also limits an override to 500 characters. A computed directory
      exceeds that exactly when its sanitised names, its id and its type code together
      exceed 496. */
  lemma ComputedLength(serverName: string, jobName: string, jobId: nat, t: BackupType)
    ensures
      var names := |Sanitize(serverName, UNNAMED_SERVER)| + |Sanitize(jobName, UNNAMED_JOB)|;
      && |Computed(serverName, jobName, jobId, t)| == names + |Digits(jobId)| + |DirCode(t)| + 4
      && (|Computed(serverName, jobName, jobId, t)| > OVERRIDE_LIMIT <==> names + |Digits(jobId)| + |DirCode(t)| > 496)
  {
  }

  /** Names may have 255 characters each, so it happens for every id and type. */
  lemma ComputedCanExceedOverrideLimit(jobId: nat, t: BackupType)
    ensures exists serverName: string, jobName: string :: |serverName| == 255 && |jobName| == 255 &&
              |Computed(serverName, jobName, jobId, t)| > OVERRIDE_LIMIT
  {
    var name: string := seq(255, _ => 'a');
    FallbacksAreSafe();
    assert name[0] == 'a';
    FixedPointsAreSafeSegments(name, UNNAMED_SERVER);
    FixedPointsAreSafeSegments(name, UNNAMED_JOB);
    ComputedLength(name, name, jobId, t);
  }
}
