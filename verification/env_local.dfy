/**
 * How the catalog ingestion script finds its database URL when the
 * process environment does not provide one: it scans the lines of
 * `.env.local` for the first line whose stripped form starts with
 * `DATABASE_URL`, splits that line at its first '=', stores the stripped
 * halves as an environment variable, and stops scanning. If the variable
 * is still unset or empty afterwards, the script aborts with status 1.
 *
 * The environment is a finite map from names to values; the file is the
 * sequence of its lines, each with its line terminator.
 */
module EnvLocal {
  import opened Base

  /** The variable the scan looks for, and the prefix that selects a line. */
  const UrlVar: string := "DATABASE_URL"

  /** Python's `str.isspace()`: the characters `str.strip()` removes. */
  predicate IsSpace(c: char)
  {
    var n := c as int;
    || 0x09 <= n <= 0x0D || 0x1C <= n <= 0x20 || n == 0x85 || n == 0xA0
    || n == 0x1680 || 0x2000 <= n <= 0x200A || n == 0x2028 || n == 0x2029
    || n == 0x202F || n == 0x205F || n == 0x3000
  }

  /** Number of whitespace characters at the front of s. */
  function LeadingSpaces(s: string): (n: nat)
    ensures n <= |s|
  {
    if s != [] && IsSpace(s[0]) then 1 + LeadingSpaces(s[1..]) else 0
  }

  /** Length of s once its trailing whitespace is removed. */
  function TrailingEnd(s: string): (n: nat)
    ensures n <= |s|
  {
    if s != [] && IsSpace(s[|s| - 1]) then TrailingEnd(s[..|s| - 1]) else |s|
  }

  /** `s.strip()`. */
  function Strip(s: string): string
  {
    var front := s[LeadingSpaces(s)..];
    front[..TrailingEnd(front)]
  }

  predicate StartsWith(s: string, prefix: string)
  {
    |prefix| <= |s| && s[..|prefix|] == prefix
  }

  /** Index of the first occurrence of c in s, or |s| when there is none. */
  function FindChar(s: string, c: char): (k: nat)
    ensures k <= |s|
    ensures forall i :: 0 <= i < k ==> s[i] != c
    ensures k < |s| ==> s[k] == c
  {
    if s == [] || s[0] == c then 0 else 1 + FindChar(s[1..], c)
  }

  /** The first component of `line.partition('=')`: everything before the first '='. */
  function Head(line: string): string
  {
    line[..FindChar(line, '=')]
  }

  /** The last component of `line.partition('=')`: everything after the first '=', or "" without one. */
  function Tail(line: string): string
  {
    var k := FindChar(line, '=');
    if k < |line| then line[k + 1..] else ""
  }

  /** The scan's test `line.strip().startswith('DATABASE_URL')`. */
  predicate Selects(line: string)
  {
    StartsWith(Strip(line), UrlVar)
  }

  function EnvKey(line: string): string
  {
    Strip(Head(line))
  }

  function EnvValue(line: string): string
  {
    Strip(Tail(line))
  }

  /** The environment after the scan: the first selected line sets its key, and nothing after it is read. */
  function ScannedEnv(env: map<string, string>, lines: seq<string>): map<string, string>
  {
    if lines == [] then env
    else if Selects(lines[0]) then env[EnvKey(lines[0]) := EnvValue(lines[0])]
    else ScannedEnv(env, lines[1..])
  }

  /** The `for line in f: ... break` loop, writing into the environment it is given. */
  method ScanEnvLocal(env: map<string, string>, lines: seq<string>) returns (result: map<string, string>)
    ensures result == ScannedEnv(env, lines)
  {
    result := env;
    for i := 0 to |lines|
      invariant ScannedEnv(env, lines) == ScannedEnv(env, lines[i..])
      invariant result == env
    {
      if Selects(lines[i]) {
        var key, value := Strip(Head(lines[i])), Strip(Tail(lines[i]));
        result := env[key := value];
        break;
      }
      assert lines[i..][1..] == lines[i + 1..];
    }
  }

  lemma {:induction false} LeadingSpacesExact(s: string)
    ensures forall i :: 0 <= i < LeadingSpaces(s) ==> IsSpace(s[i])
    ensures LeadingSpaces(s) < |s| ==> !IsSpace(s[LeadingSpaces(s)])
  {
    if s != [] && IsSpace(s[0]) {
      LeadingSpacesExact(s[1..]);
    }
  }

  lemma {:induction false} TrailingEndExact(s: string)
    ensures forall i :: TrailingEnd(s) <= i < |s| ==> IsSpace(s[i])
    ensures TrailingEnd(s) > 0 ==> !IsSpace(s[TrailingEnd(s) - 1])
  {
    if s != [] && IsSpace(s[|s| - 1]) {
      TrailingEndExact(s[..|s| - 1]);
    }
  }

  /**
   * `strip()` removes exactly the maximal runs of whitespace at both ends:
   * the result is a slice s[a..b] with only whitespace outside it and, when
   * it is not empty, non-whitespace at both of its ends.
   */
  lemma StripCharacterised(s: string)
    ensures var a := LeadingSpaces(s);
            a + TrailingEnd(s[a..]) <= |s| &&
            Strip(s) == s[a..a + TrailingEnd(s[a..])] &&
            (forall i :: 0 <= i < a ==> IsSpace(s[i])) &&
            (forall i :: a + TrailingEnd(s[a..]) <= i < |s| ==> IsSpace(s[i])) &&
            (Strip(s) != [] ==> !IsSpace(Strip(s)[0]) && !IsSpace(Strip(s)[|Strip(s)| - 1]))
  {
    var a := LeadingSpaces(s);
    LeadingSpacesExact(s);
    TrailingEndExact(s[a..]);
  }

  /** A whitespace run followed by a non-whitespace character: LeadingSpaces stops exactly there. */
  lemma {:induction false} LeadingSpacesAt(s: string, j: nat)
    requires j < |s|
    requires forall i :: 0 <= i < j ==> IsSpace(s[i])
    requires !IsSpace(s[j])
    ensures LeadingSpaces(s) == j
  {
    if j > 0 {
      LeadingSpacesAt(s[1..], j - 1);
    }
  }

  /** The key stored by the scan always begins with `DATABASE_URL`. */
  lemma SelectedKeyHasUrlPrefix(line: string)
    requires Selects(line)
    ensures StartsWith(EnvKey(line), UrlVar)
  {
    var j := LeadingSpaces(line);
    var front := line[j..];
    LeadingSpacesExact(line);
    assert front[..|UrlVar|] == UrlVar;
    assert line[j..j + |UrlVar|] == UrlVar;
    forall i | 0 <= i < j + |UrlVar|
      ensures line[i] != '='
    {
      if i >= j {
        assert line[i] == UrlVar[i - j];
      }
    }
    var head := Head(line);
    assert head[j] == 'D';
    LeadingSpacesAt(head, j);
    var hfront := head[j..];
    assert hfront[..|UrlVar|] == UrlVar;
    TrailingEndExact(hfront);
    assert hfront[|UrlVar| - 1] == UrlVar[|UrlVar| - 1] == 'L';
    assert TrailingEnd(hfront) >= |UrlVar|;
  }

  /** The scan reads up to the first selected line, sets its key to its value, and stops there. */
  lemma {:induction false} ScannedEnvFirstSelected(env: map<string, string>, lines: seq<string>, k: nat)
    requires k < |lines| && Selects(lines[k])
    requires forall j :: 0 <= j < k ==> !Selects(lines[j])
    ensures ScannedEnv(env, lines) == env[EnvKey(lines[k]) := EnvValue(lines[k])]
  {
    if k > 0 {
      ScannedEnvFirstSelected(env, lines[1..], k - 1);
    }
  }

  /** Without a selected line the environment is left as it was. */
  lemma {:induction false} ScannedEnvNoSelected(env: map<string, string>, lines: seq<string>)
    requires forall j :: 0 <= j < |lines| ==> !Selects(lines[j])
    ensures ScannedEnv(env, lines) == env
  {
    if lines != [] {
      ScannedEnvNoSelected(env, lines[1..]);
    }
  }

  /** Outcome of the start-up check: a URL to connect to, or `sys.exit(1)`. */
  datatype UrlResolution = Resolved(url: string) | Aborted

  /** Python truthiness of `os.getenv(name)`: set and not empty. */
  predicate IsSetNonEmpty(env: map<string, string>, name: string)
  {
    name in env && env[name] != ""
  }

  /** `Aborted` stands for the `sys.exit(1)` taken when no URL is found. */
  function ExitStatus(r: UrlResolution): (status: int)
    ensures status != 0 <==> r.Aborted?
  {
    if r.Aborted? then 1 else 0
  }

  /**
   * The module-level start-up logic: the environment's DATABASE_URL if set and
   * non-empty; otherwise the one `.env.local` provides (when the file exists);
   * otherwise abort.
   */
  function ResolveDatabaseUrl(env: map<string, string>, envLocal: Option<seq<string>>): (r: UrlResolution)
    ensures r.Resolved? ==> r.url != ""
    ensures IsSetNonEmpty(env, UrlVar) ==> r == Resolved(env[UrlVar])
    ensures !IsSetNonEmpty(env, UrlVar) && envLocal.None? ==> r.Aborted?
    ensures !IsSetNonEmpty(env, UrlVar) && envLocal.Some? ==>
      && (r.Resolved? <==> IsSetNonEmpty(ScannedEnv(env, envLocal.value), UrlVar))
      && (r.Resolved? ==> r.url == ScannedEnv(env, envLocal.value)[UrlVar])
  {
    if IsSetNonEmpty(env, UrlVar) then Resolved(env[UrlVar])
    else
      var scanned := if envLocal.Some? then ScannedEnv(env, envLocal.value) else env;
      if IsSetNonEmpty(scanned, UrlVar) then Resolved(scanned[UrlVar]) else Aborted
  }

  /**
   * Start-up exits with a non-zero status exactly when the environment has no
   * non-empty DATABASE_URL and either there is no `.env.local` or its scan
   * provides none.
   */
  lemma ResolutionExitStatus(env: map<string, string>, envLocal: Option<seq<string>>)
    ensures ExitStatus(ResolveDatabaseUrl(env, envLocal)) != 0 <==>
      !IsSetNonEmpty(env, UrlVar) && (envLocal.None? || !IsSetNonEmpty(ScannedEnv(env, envLocal.value), UrlVar))
  {
  }

  /** FindChar returns the position of the first occurrence. */
  lemma {:induction false} FindCharAt(s: string, c: char, k: nat)
    requires k < |s| && s[k] == c
    requires forall i :: 0 <= i < k ==> s[i] != c
    ensures FindChar(s, c) == k
  {
    if k > 0 {
      FindCharAt(s[1..], c, k - 1);
    }
  }

  /** A string with no whitespace at either end is its own strip. */
  lemma StripTrimmed(s: string)
    requires s != [] && !IsSpace(s[0]) && !IsSpace(s[|s| - 1])
    ensures Strip(s) == s
  {
    LeadingSpacesAt(s, 0);
    assert s[0..] == s;
  }

  /** A line `name=value` with its terminator stores `value` under `name` when both are already trimmed. */
  lemma AssignmentLineParts(name: string, value: string)
    requires name != [] && !IsSpace(name[0]) && !IsSpace(name[|name| - 1])
    requires value != [] && !IsSpace(value[0]) && !IsSpace(value[|value| - 1])
    requires forall i :: 0 <= i < |name| ==> name[i] != '='
    ensures Strip(name + "=" + value + "\n") == name + "=" + value
    ensures EnvKey(name + "=" + value + "\n") == name
    ensures EnvValue(name + "=" + value + "\n") == value
  {
    var line := name + "=" + value + "\n";
    var trimmed := name + "=" + value;
    assert line == trimmed + "\n";
    FindCharAt(line, '=', |name|);
    assert Head(line) == name;
    assert Tail(line) == value + "\n";
    StripTrimmed(name);
    StripTrailingNewline(value);
    StripTrailingNewline(trimmed);
  }

  /** A trimmed string followed by a line terminator strips to itself. */
  lemma StripTrailingNewline(s: string)
    requires s != [] && !IsSpace(s[0]) && !IsSpace(s[|s| - 1])
    ensures Strip(s + "\n") == s
  {
    var t := s + "\n";
    LeadingSpacesAt(t, 0);
    assert t[0..] == t;
    assert t[..|t| - 1] == s;
    StripTrimmed(s);
  }

  /**
   * A line such as `DATABASE_URL_X=...` ahead of the real one is selected
   * (it starts with the prefix), sets DATABASE_URL_X and ends the scan, so
   * a later `DATABASE_URL` line is never read and, when the environment has
   * no DATABASE_URL of its own, start-up aborts.
   */
  lemma PrefixedNameEndsScan(env: map<string, string>, value: string, later: seq<string>)
    requires value != [] && !IsSpace(value[0]) && !IsSpace(value[|value| - 1])
    requires !IsSetNonEmpty(env, UrlVar)
    ensures var lines := ["DATABASE_URL_X" + "=" + value + "\n"] + later;
            ScannedEnv(env, lines) == env["DATABASE_URL_X" := value] &&
            ResolveDatabaseUrl(env, Some(lines)) == Aborted
  {
    var name := "DATABASE_URL_X";
    var line := name + "=" + value + "\n";
    AssignmentLineParts(name, value);
    assert Selects(line) by {
      assert (name + "=" + value)[..|UrlVar|] == UrlVar;
    }
    var lines := [line] + later;
    assert lines[0] == line;
    assert ScannedEnv(env, lines) == env[name := value];
    assert !IsSetNonEmpty(env[name := value], UrlVar);
  }
}
