/**
 * tests.py's session id extraction from the noisy output of
 * `agentsh session create`. The text searched is the leftmost match of the
 * regular expression `\{[^{}]*"id"[^{}]*\}`, or the whole output when there
 * is none; JSON decoding is an abstract partial function.
 */
module Session {
  import opened Common
  import opened Text
  import opened Sandbox

  /** The key read from the decoded object, and the text the pattern requires between the braces. */
  const IdKey := "id"
  const QuotedId := "\"id\""

  /** The session id standing for "no session". */
  const NoSession := ""

  /** `json.loads` on the candidate text: `None` stands for `JSONDecodeError`, `Some` for a decoded object. */
  type Decoder = string -> Option<map<string, string>>

  predicate IsBrace(c: char) {
    c == '{' || c == '}'
  }

  /**
   * The pattern `\{[^{}]*"id"[^{}]*\}` matches exactly `s[i..j + 1]`: an
   * opening brace, a closing brace, no brace between them, and `"id"`
   * somewhere between them.
   */
  predicate IdObjectAt(s: string, i: int, j: int) {
    && 0 <= i < j < |s|
    && s[i] == '{'
    && s[j] == '}'
    && (forall k :: i < k < j ==> !IsBrace(s[k]))
    && Contains(s[i + 1..j], QuotedId)
  }

  /** The first brace character at or after index `k`, or `|s|` when there is none. */
  function NextBrace(s: string, k: nat): (n: nat)
    requires k <= |s|
    ensures k <= n <= |s|
    ensures forall m :: k <= m < n ==> !IsBrace(s[m])
    ensures n < |s| ==> IsBrace(s[n])
    decreases |s| - k
  {
    if k == |s| || IsBrace(s[k]) then k else NextBrace(s, k + 1)
  }

  /** A match that starts at `i` can only end at the first brace character after `i`. */
  lemma MatchEndsAtNextBrace(s: string, i: nat)
    requires i < |s|
    ensures forall b :: IdObjectAt(s, i, b) ==> b == NextBrace(s, i + 1)
  {
    var n := NextBrace(s, i + 1);
    forall b | IdObjectAt(s, i, b)
      ensures b == n
    {
      assert IsBrace(s[b]);
    }
  }

  /**
   * `re.search` from start position `i` on: it tries each start in turn, and
   * a start `{` matches only up to the next brace character, which must be
   * `}`. The result is the leftmost match at or after `i`.
   */
  function SearchFrom(s: string, i: nat): (r: Option<(nat, nat)>)
    requires i <= |s|
    ensures r.Some? ==> i <= r.value.0 && IdObjectAt(s, r.value.0, r.value.1)
    ensures r.Some? ==> forall a, b :: i <= a < r.value.0 ==> !IdObjectAt(s, a, b)
    ensures r.None? ==> forall a, b :: i <= a ==> !IdObjectAt(s, a, b)
    decreases |s| - i
  {
    if i == |s| then None
    else
      var n := NextBrace(s, i + 1);
      MatchEndsAtNextBrace(s, i);
      if s[i] == '{' && n < |s| && s[n] == '}' && Contains(s[i + 1..n], QuotedId) then Some((i, n))
      else SearchFrom(s, i + 1)
  }

  /** The leftmost match of the pattern in `s`, as the indices of its two braces. */
  function Search(s: string): (r: Option<(nat, nat)>)
    ensures r.Some? ==> IdObjectAt(s, r.value.0, r.value.1)
    ensures r.Some? ==> forall a, b :: 0 <= a < r.value.0 ==> !IdObjectAt(s, a, b)
    ensures r.None? <==> forall a, b :: !IdObjectAt(s, a, b)
  {
    SearchFrom(s, 0)
  }

  /** The inside of the slice `s[i..j + 1]` is `s[i + 1..j]`. */
  lemma InnerSlice(s: string, i: nat, j: nat)
    requires i < j < |s|
    ensures s[i..j + 1][1..j - i] == s[i + 1..j]
  {
    var t := s[i..j + 1];
    var u := t[1..j - i];
    var w := s[i + 1..j];
    forall k | 0 <= k < |w|
      ensures u[k] == w[k]
    {
      assert u[k] == t[k + 1];
    }
  }

  /** The text handed to the decoder: the leftmost match, or else the whole output. */
  function Candidate(output: string): (text: string)
    ensures Search(output).None? ==> text == output
    ensures Search(output).Some? ==> text == output[Search(output).value.0..Search(output).value.1 + 1]
    ensures Search(output).Some? ==>
      |text| >= 2 && text[0] == '{' && text[|text| - 1] == '}' && Contains(text[1..|text| - 1], QuotedId)
  {
    match Search(output)
    case Some((i, j)) =>
      var text := output[i..j + 1];
      InnerSlice(output, i, j);
      text
    case None => output
  }

  /**
   * The session id tests.py extracts from the stripped output: the `id`
   * field of the decoded candidate text, `""` when the object has no `id`,
   * and `""` instead of an exception when decoding fails.
   */
  function SessionId(output: string, decode: Decoder): (id: string)
    ensures decode(Candidate(output)).None? ==> id == NoSession
    ensures decode(Candidate(output)).Some? && IdKey !in decode(Candidate(output)).value ==> id == NoSession
    ensures id != NoSession ==> decode(Candidate(output)).Some? && decode(Candidate(output)).value[IdKey] == id
    ensures decode(Candidate(output)).Some? && IdKey in decode(Candidate(output)).value ==>
      id == decode(Candidate(output)).value[IdKey]
  {
    match decode(Candidate(output))
    case None => NoSession
    case Some(obj) => if IdKey in obj then obj[IdKey] else NoSession
  }

  /**
   * tests.py's session creation: run the command through the total wrapper
   * and extract the id from `(stdout + stderr).strip()`. Since the wrapper
   * turns an exception into its message on stderr, that message is what gets
   * parsed when the call raised.
   */
  function CreateSession(reply: Reply, decode: Decoder): (id: string)
    ensures id == SessionId(Strip(RunCommand(reply).stdout + RunCommand(reply).stderr), decode)
    ensures reply.Threw? ==> id == SessionId(Strip(reply.fault.message), decode)
    ensures reply.Exited? && reply.stdout.None? && reply.stderr.None? ==> id == SessionId([], decode)
  {
    var c := RunCommand(reply);
    assert reply.Threw? ==> c.stdout + c.stderr == reply.fault.message;
    assert reply.Exited? && reply.stdout.None? && reply.stderr.None? ==> Strip(c.stdout + c.stderr) == [];
    SessionId(Strip(c.stdout + c.stderr), decode)
  }

  /** The exit code of the session command plays no part: only its output does. */
  lemma SessionIgnoresExitCode(out: Option<string>, err: Option<string>, code1: Option<int>, code2: Option<int>, decode: Decoder)
    ensures CreateSession(Exited(out, err, code1), decode) == CreateSession(Exited(out, err, code2), decode)
  {
  }

  /** A brace-free stretch shifted into a longer string stays brace-free. */
  lemma IdObjectShift(pre: string, obj: string, post: string)
    requires IdObjectAt(obj, 0, |obj| - 1)
    ensures IdObjectAt(pre + obj + post, |pre|, |pre| + |obj| - 1)
  {
    var s := pre + obj + post;
    assert s[|pre| + 1..|pre| + |obj| - 1] == obj[1..|obj| - 1];
    forall k | |pre| < k < |pre| + |obj| - 1
      ensures !IsBrace(s[k])
    {
      assert s[k] == obj[k - |pre|];
    }
  }

  /**
   * Surrounding text does not affect the choice: when the text before an
   * `id` object holds no match of its own, the object is the leftmost match,
   * whatever follows it.
   */
  lemma SurroundingTextIgnored(pre: string, obj: string, post: string)
    requires IdObjectAt(obj, 0, |obj| - 1)
    requires forall a, b :: !IdObjectAt(pre, a, b)
    ensures Search(pre + obj + post) == Some((|pre|, |pre| + |obj| - 1))
    ensures Candidate(pre + obj + post) == obj
  {
    var s := pre + obj + post;
    var e := |pre| + |obj| - 1;
    IdObjectShift(pre, obj, post);
    forall a, b | 0 <= a < |pre|
      ensures !IdObjectAt(s, a, b)
    {
      if a < b < |pre| {
        assert s[a + 1..b] == pre[a + 1..b];
        assert forall k :: a <= k <= b ==> s[k] == pre[k];
        assert IdObjectAt(s, a, b) == IdObjectAt(pre, a, b);
      } else if |pre| <= b < |s| {
        assert s[|pre|] == '{';
      }
    }
    var r := Search(s);
    assert r.Some?;
    assert r.value.0 == |pre|;
    UniqueEnd(s, |pre|, r.value.1, e);
    assert s[|pre|..e + 1] == obj;
  }

  /** A match that starts at a given brace ends at a determined place: the next brace character. */
  lemma UniqueEnd(s: string, i: int, j1: int, j2: int)
    requires IdObjectAt(s, i, j1) && IdObjectAt(s, i, j2)
    ensures j1 == j2
  {
    assert IsBrace(s[j1]) && IsBrace(s[j2]);
  }

  /**
   * A noisy example: log lines around `{"id":"abc123"}`
   * yield `abc123`, given that the decoder reads that object.
   */
  lemma NoisyOutputExample(decode: Decoder)
    requires decode("{\"id\":\"abc123\"}") == Some(map["id" := "abc123"])
    ensures SessionId("log line\n{\"id\":\"abc123\"}\nmore log", decode) == "abc123"
  {
    var pre := "log line\n";
    var obj := "{\"id\":\"abc123\"}";
    var post := "\nmore log";
    assert pre + obj + post == "log line\n{\"id\":\"abc123\"}\nmore log";
    var inner := obj[1..|obj| - 1];
    assert inner[0] == '"' && inner[1] == 'i' && inner[2] == 'd' && inner[3] == '"';
    assert inner[..|QuotedId|] == QuotedId;
    assert Contains(inner, QuotedId);
    forall k | 0 < k < |obj| - 1
      ensures !IsBrace(obj[k])
    {
    }
    assert IdObjectAt(obj, 0, |obj| - 1);
    forall a, b
      ensures !IdObjectAt(pre, a, b)
    {
      if 0 <= a < |pre| {
        assert pre[a] != '{';
      }
    }
    SurroundingTextIgnored(pre, obj, post);
  }

  /** Output with no match is decoded whole, and a decode failure there gives the empty id. */
  lemma NoMatchDecodesWhole(output: string, decode: Decoder)
    requires forall a, b :: !IdObjectAt(output, a, b)
    requires decode(output).None?
    ensures SessionId(output, decode) == NoSession
  {
  }
}
