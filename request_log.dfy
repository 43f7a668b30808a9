/**
  The request logger: once a response has finished, a line naming the HTTP method,
  path, status and duration (and the JSON body, if one was sent) is logged for
  API paths only, clipped to a fixed width.
 */
module RequestLog {
  import opened Wrappers

  /** The widest line the logger emits. */
  const MaxLength: nat := 80

  /** The horizontal ellipsis that marks a clipped line. */
  const Ellipsis: char := '\U{2026}'

  const ApiPrefix: string := "/api"

  predicate StartsWith(s: string, prefix: string)
  {
    |prefix| <= |s| && s[..|prefix|] == prefix
  }

  predicate IsDigit(c: char)
  {
    '0' <= c <= '9'
  }

  /** The number a string of decimal digits denotes. */
  function DigitsValue(s: string): int
    requires forall i :: 0 <= i < |s| ==> IsDigit(s[i])
  {
    if s == [] then 0 else 10 * DigitsValue(s[..|s| - 1]) + (s[|s| - 1] as int - '0' as int)
  }

  /** The base-ten spelling of `n`, as a template literal renders a number:
      digits only, no leading zero, and denoting `n`. */
  function Decimal(n: nat): (s: string)
    ensures |s| >= 1
    ensures forall i :: 0 <= i < |s| ==> IsDigit(s[i])
    ensures s[0] == '0' ==> n == 0
    ensures DigitsValue(s) == n
  {
    var digit := [(48 + n % 10) as char];
    if n < 10 then digit
    else
      var init := Decimal(n / 10);
      assert (init + digit)[..|init|] == init;
      init + digit
  }

  /** The unclipped line: `METHOD path status in Nms`, followed by
      ` :: <json>` when the handler sent a JSON body. */
  function Line(verb: string, path: string, status: nat, durationMs: nat, json: Option<string>): string
  {
    var head := verb + " " + path + " " + Decimal(status) + " in " + Decimal(durationMs) + "ms";
    if json.Some? then head + " :: " + json.value else head
  }

  /** A line longer than `MaxLength` keeps its first `MaxLength - 1`
      characters and gains an ellipsis; a shorter one is left alone. */
  function Clip(line: string): (r: string)
    ensures |r| <= MaxLength
    ensures |line| <= MaxLength ==> r == line
    ensures |line| > MaxLength ==> |r| == MaxLength && r[..MaxLength - 1] == line[..MaxLength - 1] && r[MaxLength - 1] == Ellipsis
  {
    if |line| > MaxLength then line[..MaxLength - 1] + [Ellipsis] else line
  }

  /** Clipping a line that was already clipped changes nothing. */
  lemma ClipIdempotent(line: string)
    ensures Clip(Clip(line)) == Clip(line)
  {
  }

  /** What the logger emits for a finished request: nothing for a path
      outside the API, otherwise the clipped line. */
  function LogEntry(verb: string, path: string, status: nat, durationMs: nat, json: Option<string>): (r: Option<string>)
    ensures r.Some? <==> StartsWith(path, ApiPrefix)
    ensures r.Some? ==> |r.value| <= MaxLength
    ensures r.Some? ==> r.value == Clip(Line(verb, path, status, durationMs, json))
  {
    if StartsWith(path, ApiPrefix) then Some(Clip(Line(verb, path, status, durationMs, json))) else None
  }

  /** The line for a request always begins with its verb and path; so
      whenever those fit, they survive clipping intact. */
  lemma EntryKeepsRequest(verb: string, path: string, status: nat, durationMs: nat, json: Option<string>)
    requires StartsWith(path, ApiPrefix)
    requires |verb| + 1 + |path| <= MaxLength - 1
    ensures var r := LogEntry(verb, path, status, durationMs, json);
      r.Some? && StartsWith(r.value, verb + " " + path)
  {
    var line := Line(verb, path, status, durationMs, json);
    var prefix := verb + " " + path;
    assert line[..|prefix|] == prefix;
  }

  /** A line that fits is emitted exactly as written: a short JSON body is
      never clipped. */
  lemma ShortLineUnchanged(verb: string, path: string, status: nat, durationMs: nat, json: Option<string>)
    requires StartsWith(path, ApiPrefix)
    requires |Line(verb, path, status, durationMs, json)| <= MaxLength
    ensures LogEntry(verb, path, status, durationMs, json) == Some(Line(verb, path, status, durationMs, json))
  {
  }
}
