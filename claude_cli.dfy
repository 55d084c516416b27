/** The pure parts of the AI command-line adapter
    (internal/services/claude_code_cli.go): the prompts handed to the CLI, the
    process arguments and environment additions, the timeout, the test of
    its output, and the key masking used in log lines. Running the process is
    not part of this model. */
module ClaudeCli {
  import opened Text
  import opened Effects

  /** The adapter's configuration fields this model reads. */
  datatype CliConfig = CliConfig(apiKey: Bytes, baseUrl: Bytes, model: Bytes, timeoutSeconds: int)

  // ---------------------------------------------------------------------
  // Key masking (maskAPIKey)

  const Stars: Bytes := Ascii("***")

  /** maskAPIKey: keys of at most 8 bytes become "***"; longer keys keep their
      first and last 4 bytes around "***". */
  function MaskApiKey(key: Bytes): (r: Bytes)
    ensures |key| <= 8 ==> r == Stars
    ensures |key| > 8 ==>
      |r| == 11 && r[..4] == key[..4] && r[4..7] == Stars && r[7..] == key[|key| - 4..]
  {
    if |key| <= 8 then Stars else key[..4] + Stars + key[|key| - 4..]
  }

  /** The mask depends only on the first and last 4 bytes of a long key:
      whatever lies between is never shown. */
  lemma MaskHidesMiddle(k1: Bytes, k2: Bytes)
    requires |k1| > 8 && |k2| > 8
    requires k1[..4] == k2[..4] && k1[|k1| - 4..] == k2[|k2| - 4..]
    ensures MaskApiKey(k1) == MaskApiKey(k2)
  {
  }

  // ---------------------------------------------------------------------
  // Process arguments and environment

  const PrintFlag: Bytes := Ascii("--print")
  const ModelFlag: Bytes := Ascii("--model")
  const ApiKeyVariable: Bytes := Ascii("ANTHROPIC_API_KEY=")
  const BaseUrlVariable: Bytes := Ascii("ANTHROPIC_BASE_URL=")

  /** The CLI arguments: "--print", then "--model" and the model when one is
      configured, and the prompt last. */
  function CliArgs(model: Bytes, prompt: Bytes): (r: seq<Bytes>)
    ensures |r| >= 2 && r[0] == PrintFlag && r[|r| - 1] == prompt
    ensures model != [] <==> ModelFlag in r[..|r| - 1]
    ensures model != [] ==> |r| == 4 && r[1] == ModelFlag && r[2] == model
    ensures model == [] ==> |r| == 2
  {
    assert PrintFlag[2] != ModelFlag[2];
    [PrintFlag] + (if model != [] then [ModelFlag, model] else []) + [prompt]
  }

  /** The environment of the CLI process: the inherited entries, then the key
      and the base URL, each only when configured. */
  function CliEnv(inherited: seq<Bytes>, apiKey: Bytes, baseUrl: Bytes): (r: seq<Bytes>)
    ensures |r| == |inherited| + (if apiKey != [] then 1 else 0) + (if baseUrl != [] then 1 else 0)
    ensures r[..|inherited|] == inherited
    ensures apiKey != [] ==> r[|inherited|] == ApiKeyVariable + apiKey
    ensures baseUrl != [] ==> r[|r| - 1] == BaseUrlVariable + baseUrl
  {
    inherited + (if apiKey != [] then [ApiKeyVariable + apiKey] else [])
              + (if baseUrl != [] then [BaseUrlVariable + baseUrl] else [])
  }

  // ---------------------------------------------------------------------
  // Timeout

  const NanosPerSecond: int := 1_000_000_000
  const DefaultTimeout: int := 120 * NanosPerSecond
  const TwoTo63: int := 0x8000_0000_0000_0000

  /** Go's int64 arithmetic: the value taken modulo 2^64 into [-2^63, 2^63). */
  function WrapInt64(x: int): (r: int)
    ensures -TwoTo63 <= r < TwoTo63
    ensures (r - x) % (2 * TwoTo63) == 0
    ensures -TwoTo63 <= x < TwoTo63 ==> r == x
  {
    var m := x % (2 * TwoTo63);
    if m >= TwoTo63 then m - 2 * TwoTo63 else m
  }

  /** The process timeout in nanoseconds: the configured seconds as a
      time.Duration (an int64 product), or two minutes when that is zero. */
  function CliTimeout(seconds: int): (r: int)
    ensures r != 0
    ensures seconds == 0 ==> r == DefaultTimeout
    ensures 0 < seconds * NanosPerSecond < TwoTo63 ==> r == seconds * NanosPerSecond
  {
    var d := WrapInt64(seconds * NanosPerSecond);
    if d == 0 then DefaultTimeout else d
  }

  /** A timeout of any multiple of 2^55 seconds wraps to zero nanoseconds and
      so also gets the default. */
  lemma TimeoutWrapsToDefault(m: int)
    ensures CliTimeout(m * 0x80_0000_0000_0000) == DefaultTimeout
  {
    var k := m * 1953125;
    assert m * 0x80_0000_0000_0000 * NanosPerSecond == k * (2 * TwoTo63);
    assert (k * (2 * TwoTo63)) % (2 * TwoTo63) == 0;
  }

  // ---------------------------------------------------------------------
  // Output

  /** The test of the collected output: it is trimmed, and blank output is
      the no-output error. */
  function CheckOutput(output: Bytes): (r: Outcome<Bytes>)
    ensures r.Ok? ==> r.value != [] && Trimmed(r.value) && r.value == TrimSpace(output)
    ensures r.Fail? ==> r.failure == NoOutput
  {
    var trimmed := TrimSpace(output);
    if trimmed == [] then Fail(NoOutput) else Ok(trimmed)
  }

  /** Output fails the test exactly when it is all white space. */
  lemma CheckOutputBlank(output: Bytes)
    ensures CheckOutput(output).Fail? <==> forall k :: 0 <= k < |output| ==> IsSpace(output[k])
  {
    TrimSpaceEmpty(output);
  }

  // ---------------------------------------------------------------------
  // Prompts (build*Prompt): a fixed head, the first input, a fixed middle,
  // the second input and a fixed tail of instructions.

  const CodeHead: Bytes := [
    0xE4, 0xBD, 0xA0, 0xE6, 0x98, 0xAF, 0xE4, 0xB8, 0x80, 0xE4, 0xB8, 0xAA, 0xE4, 0xB8, 0x93, 0xE4,
    0xB8, 0x9A, 0xE7, 0x9A, 0x84, 0xE8, 0xBD, 0xAF, 0xE4, 0xBB, 0xB6, 0xE5, 0xBC, 0x80, 0xE5, 0x8F,
    0x91, 0xE5, 0x8A, 0xA9, 0xE6, 0x89, 0x8B, 0xEF, 0xBC, 0x8C, 0xE4, 0xB8, 0x93, 0xE9, 0x97, 0xA8,
    0xE5, 0xB8, 0xAE, 0xE5, 0x8A, 0xA9, 0xE7, 0x94, 0xA8, 0xE6, 0x88, 0xB7, 0xE7, 0x94, 0x9F, 0xE6,
    0x88, 0x90, 0xE9, 0xAB, 0x98, 0xE8, 0xB4, 0xA8, 0xE9, 0x87, 0x8F, 0xE7, 0x9A, 0x84, 0xE4, 0xBB,
    0xA3, 0xE7, 0xA0, 0x81, 0xE3, 0x80, 0x82, 0x0A, 0x0A, 0x2A, 0x2A, 0xE9, 0x9C, 0x80, 0xE6, 0xB1,
    0x82, 0xE6, 0x8F, 0x8F, 0xE8, 0xBF, 0xB0, 0x3A, 0x2A, 0x2A, 0x0A]

  const CodeMiddle: Bytes := [
    0x0A, 0x0A, 0x2A, 0x2A, 0xE9, 0xA1, 0xB9, 0xE7, 0x9B, 0xAE, 0xE4, 0xB8, 0x8A, 0xE4, 0xB8, 0x8B,
    0xE6, 0x96, 0x87, 0x3A, 0x2A, 0x2A, 0x0A]

  const CodeTail: Bytes := [
    0x0A, 0x0A, 0x2A, 0x2A, 0xE8, 0xA6, 0x81, 0xE6, 0xB1, 0x82, 0x3A, 0x2A, 0x2A, 0x0A, 0x31, 0x2E,
    0x20, 0xE7, 0x94, 0x9F, 0xE6, 0x88, 0x90, 0xE5, 0xAE, 0x8C, 0xE6, 0x95, 0xB4, 0xE3, 0x80, 0x81,
    0xE5, 0x8F, 0xAF, 0xE8, 0xBF, 0x90, 0xE8, 0xA1, 0x8C, 0xE7, 0x9A, 0x84, 0xE4, 0xBB, 0xA3, 0xE7,
    0xA0, 0x81, 0x0A, 0x32, 0x2E, 0x20, 0xE5, 0x8C, 0x85, 0xE5, 0x90, 0xAB, 0xE5, 0xBF, 0x85, 0xE8,
    0xA6, 0x81, 0xE7, 0x9A, 0x84, 0xE6, 0xB3, 0xA8, 0xE9, 0x87, 0x8A, 0xE5, 0x92, 0x8C, 0xE6, 0x96,
    0x87, 0xE6, 0xA1, 0xA3, 0x0A, 0x33, 0x2E, 0x20, 0xE9, 0x81, 0xB5, 0xE5, 0xBE, 0xAA, 0xE6, 0x9C,
    0x80, 0xE4, 0xBD, 0xB3, 0xE5, 0xAE, 0x9E, 0xE8, 0xB7, 0xB5, 0xE5, 0x92, 0x8C, 0xE4, 0xBB, 0xA3,
    0xE7, 0xA0, 0x81, 0xE8, 0xA7, 0x84, 0xE8, 0x8C, 0x83, 0x0A, 0x34, 0x2E, 0x20, 0xE8, 0x80, 0x83,
    0xE8, 0x99, 0x91, 0xE9, 0x94, 0x99, 0xE8, 0xAF, 0xAF, 0xE5, 0xA4, 0x84, 0xE7, 0x90, 0x86, 0xE5,
    0x92, 0x8C, 0xE8, 0xBE, 0xB9, 0xE7, 0x95, 0x8C, 0xE6, 0x83, 0x85, 0xE5, 0x86, 0xB5, 0x0A, 0x35,
    0x2E, 0x20, 0xE5, 0xA6, 0x82, 0xE6, 0x9E, 0x9C, 0xE6, 0xB6, 0x89, 0xE5, 0x8F, 0x8A, 0xE5, 0xA4,
    0x9A, 0xE4, 0xB8, 0xAA, 0xE6, 0x96, 0x87, 0xE4, 0xBB, 0xB6, 0xEF, 0xBC, 0x8C, 0xE8, 0xAF, 0xB7,
    0xE6, 0x98, 0x8E, 0xE7, 0xA1, 0xAE, 0xE6, 0xA0, 0x87, 0xE6, 0xB3, 0xA8, 0xE6, 0x96, 0x87, 0xE4,
    0xBB, 0xB6, 0xE5, 0x90, 0x8D, 0x0A, 0x0A, 0x2A, 0x2A, 0xE8, 0xBE, 0x93, 0xE5, 0x87, 0xBA, 0xE6,
    0xA0, 0xBC, 0xE5, 0xBC, 0x8F, 0x3A, 0x2A, 0x2A, 0x0A, 0xE8, 0xAF, 0xB7, 0xE7, 0x9B, 0xB4, 0xE6,
    0x8E, 0xA5, 0xE8, 0xBE, 0x93, 0xE5, 0x87, 0xBA, 0xE4, 0xBB, 0xA3, 0xE7, 0xA0, 0x81, 0xEF, 0xBC,
    0x8C, 0xE4, 0xB8, 0x8D, 0xE9, 0x9C, 0x80, 0xE8, 0xA6, 0x81, 0xE9, 0xA2, 0x9D, 0xE5, 0xA4, 0x96,
    0xE7, 0x9A, 0x84, 0xE8, 0xA7, 0xA3, 0xE9, 0x87, 0x8A, 0xE3, 0x80, 0x82, 0xE5, 0xA6, 0x82, 0xE6,
    0x9E, 0x9C, 0xE9, 0x9C, 0x80, 0xE8, 0xA6, 0x81, 0xE5, 0xA4, 0x9A, 0xE4, 0xB8, 0xAA, 0xE6, 0x96,
    0x87, 0xE4, 0xBB, 0xB6, 0xEF, 0xBC, 0x8C, 0xE8, 0xAF, 0xB7, 0xE4, 0xBD, 0xBF, 0xE7, 0x94, 0xA8,
    0x20, 0x60, 0x60, 0x60, 0x66, 0x69, 0x6C, 0x65, 0x6E, 0x61, 0x6D, 0x65, 0x3A, 0x70, 0x61, 0x74,
    0x68, 0x2F, 0x74, 0x6F, 0x2F, 0x66, 0x69, 0x6C, 0x65, 0x60, 0x60, 0x60, 0x20, 0xE6, 0xA0, 0xBC,
    0xE5, 0xBC, 0x8F, 0xE6, 0xA0, 0x87, 0xE6, 0xB3, 0xA8, 0xE3, 0x80, 0x82, 0x0A, 0x0A, 0xE8, 0xAF,
    0xB7, 0xE5, 0xBC, 0x80, 0xE5, 0xA7, 0x8B, 0xE7, 0x94, 0x9F, 0xE6, 0x88, 0x90, 0xE4, 0xBB, 0xA3,
    0xE7, 0xA0, 0x81, 0x3A]

  const ContinueHead: Bytes := [
    0xE4, 0xBD, 0xA0, 0xE6, 0xAD, 0xA3, 0xE5, 0x9C, 0xA8, 0xE7, 0xBB, 0xA7, 0xE7, 0xBB, 0xAD, 0xE4,
    0xB8, 0x80, 0xE4, 0xB8, 0xAA, 0xE8, 0xBD, 0xAF, 0xE4, 0xBB, 0xB6, 0xE5, 0xBC, 0x80, 0xE5, 0x8F,
    0x91, 0xE9, 0xA1, 0xB9, 0xE7, 0x9B, 0xAE, 0xE3, 0x80, 0x82, 0xE8, 0xAF, 0xB7, 0xE6, 0xA0, 0xB9,
    0xE6, 0x8D, 0xAE, 0xE4, 0xBB, 0xA5, 0xE4, 0xB8, 0x8B, 0xE6, 0x8C, 0x87, 0xE4, 0xBB, 0xA4, 0xE7,
    0xBB, 0xA7, 0xE7, 0xBB, 0xAD, 0xE5, 0xBC, 0x80, 0xE5, 0x8F, 0x91, 0xEF, 0xBC, 0x9A, 0x0A, 0x0A,
    0x2A, 0x2A, 0xE7, 0xBB, 0xA7, 0xE7, 0xBB, 0xAD, 0xE6, 0x8C, 0x87, 0xE4, 0xBB, 0xA4, 0x3A, 0x2A,
    0x2A, 0x0A]

  const ContinueMiddle: Bytes := [
    0x0A, 0x0A, 0x2A, 0x2A, 0xE5, 0xBD, 0x93, 0xE5, 0x89, 0x8D, 0xE9, 0xA1, 0xB9, 0xE7, 0x9B, 0xAE,
    0xE4, 0xB8, 0x8A, 0xE4, 0xB8, 0x8B, 0xE6, 0x96, 0x87, 0x3A, 0x2A, 0x2A, 0x0A]

  const ContinueTail: Bytes := [
    0x0A, 0x0A, 0x2A, 0x2A, 0xE8, 0xA6, 0x81, 0xE6, 0xB1, 0x82, 0x3A, 0x2A, 0x2A, 0x0A, 0x31, 0x2E,
    0x20, 0xE5, 0x9F, 0xBA, 0xE4, 0xBA, 0x8E, 0xE7, 0x8E, 0xB0, 0xE6, 0x9C, 0x89, 0xE4, 0xBB, 0xA3,
    0xE7, 0xA0, 0x81, 0xE7, 0xBB, 0xA7, 0xE7, 0xBB, 0xAD, 0xE5, 0xBC, 0x80, 0xE5, 0x8F, 0x91, 0x0A,
    0x32, 0x2E, 0x20, 0xE4, 0xBF, 0x9D, 0xE6, 0x8C, 0x81, 0xE4, 0xBB, 0xA3, 0xE7, 0xA0, 0x81, 0xE9,
    0xA3, 0x8E, 0xE6, 0xA0, 0xBC, 0xE7, 0x9A, 0x84, 0xE4, 0xB8, 0x80, 0xE8, 0x87, 0xB4, 0xE6, 0x80,
    0xA7, 0x0A, 0x33, 0x2E, 0x20, 0xE7, 0xA1, 0xAE, 0xE4, 0xBF, 0x9D, 0xE6, 0x96, 0xB0, 0xE4, 0xBB,
    0xA3, 0xE7, 0xA0, 0x81, 0xE4, 0xB8, 0x8E, 0xE7, 0x8E, 0xB0, 0xE6, 0x9C, 0x89, 0xE4, 0xBB, 0xA3,
    0xE7, 0xA0, 0x81, 0xE5, 0x85, 0xBC, 0xE5, 0xAE, 0xB9, 0x0A, 0x34, 0x2E, 0x20, 0xE6, 0xB7, 0xBB,
    0xE5, 0x8A, 0xA0, 0xE5, 0xBF, 0x85, 0xE8, 0xA6, 0x81, 0xE7, 0x9A, 0x84, 0xE6, 0xB3, 0xA8, 0xE9,
    0x87, 0x8A, 0xE8, 0xAF, 0xB4, 0xE6, 0x98, 0x8E, 0x0A, 0x0A, 0xE8, 0xAF, 0xB7, 0xE7, 0xBB, 0xA7,
    0xE7, 0xBB, 0xAD, 0xE5, 0xBC, 0x80, 0xE5, 0x8F, 0x91, 0x3A]

  const FixHead: Bytes := [
    0xE4, 0xBD, 0xA0, 0xE6, 0xAD, 0xA3, 0xE5, 0x9C, 0xA8, 0xE4, 0xBF, 0xAE, 0xE5, 0xA4, 0x8D, 0xE4,
    0xBB, 0xA3, 0xE7, 0xA0, 0x81, 0xE4, 0xB8, 0xAD, 0xE7, 0x9A, 0x84, 0xE9, 0x97, 0xAE, 0xE9, 0xA2,
    0x98, 0xE3, 0x80, 0x82, 0xE8, 0xAF, 0xB7, 0xE5, 0x88, 0x86, 0xE6, 0x9E, 0x90, 0xE5, 0xB9, 0xB6,
    0xE4, 0xBF, 0xAE, 0xE5, 0xA4, 0x8D, 0xE4, 0xBB, 0xA5, 0xE4, 0xB8, 0x8B, 0xE9, 0x97, 0xAE, 0xE9,
    0xA2, 0x98, 0xEF, 0xBC, 0x9A, 0x0A, 0x0A, 0x2A, 0x2A, 0xE9, 0x97, 0xAE, 0xE9, 0xA2, 0x98, 0xE6,
    0x8F, 0x8F, 0xE8, 0xBF, 0xB0, 0x3A, 0x2A, 0x2A, 0x0A]

  const FixMiddle: Bytes := [
    0x0A, 0x0A, 0x2A, 0x2A, 0xE4, 0xBB, 0xA3, 0xE7, 0xA0, 0x81, 0xE4, 0xB8, 0x8A, 0xE4, 0xB8, 0x8B,
    0xE6, 0x96, 0x87, 0x3A, 0x2A, 0x2A, 0x0A]

  const FixTail: Bytes := [
    0x0A, 0x0A, 0x2A, 0x2A, 0xE8, 0xA6, 0x81, 0xE6, 0xB1, 0x82, 0x3A, 0x2A, 0x2A, 0x0A, 0x31, 0x2E,
    0x20, 0xE5, 0x88, 0x86, 0xE6, 0x9E, 0x90, 0xE9, 0x97, 0xAE, 0xE9, 0xA2, 0x98, 0xE7, 0x9A, 0x84,
    0xE6, 0xA0, 0xB9, 0xE6, 0x9C, 0xAC, 0xE5, 0x8E, 0x9F, 0xE5, 0x9B, 0xA0, 0x0A, 0x32, 0x2E, 0x20,
    0xE6, 0x8F, 0x90, 0xE4, 0xBE, 0x9B, 0xE4, 0xBF, 0xAE, 0xE5, 0xA4, 0x8D, 0xE6, 0x96, 0xB9, 0xE6,
    0xA1, 0x88, 0x0A, 0x33, 0x2E, 0x20, 0xE7, 0xA1, 0xAE, 0xE4, 0xBF, 0x9D, 0xE4, 0xBF, 0xAE, 0xE5,
    0xA4, 0x8D, 0xE5, 0x90, 0x8E, 0xE7, 0x9A, 0x84, 0xE4, 0xBB, 0xA3, 0xE7, 0xA0, 0x81, 0xE6, 0xAD,
    0xA3, 0xE7, 0xA1, 0xAE, 0xE8, 0xBF, 0x90, 0xE8, 0xA1, 0x8C, 0x0A, 0x34, 0x2E, 0x20, 0xE6, 0xB7,
    0xBB, 0xE5, 0x8A, 0xA0, 0xE5, 0xBF, 0x85, 0xE8, 0xA6, 0x81, 0xE7, 0x9A, 0x84, 0xE6, 0xB3, 0xA8,
    0xE9, 0x87, 0x8A, 0xE8, 0xAF, 0xB4, 0xE6, 0x98, 0x8E, 0xE4, 0xBF, 0xAE, 0xE5, 0xA4, 0x8D, 0xE5,
    0x86, 0x85, 0xE5, 0xAE, 0xB9, 0x0A, 0x0A, 0xE8, 0xAF, 0xB7, 0xE4, 0xBF, 0xAE, 0xE5, 0xA4, 0x8D,
    0xE4, 0xBB, 0xA3, 0xE7, 0xA0, 0x81, 0x3A]

  /** The prompt head + first + middle + second + tail. */
  function Fill(head: Bytes, first: Bytes, middle: Bytes, second: Bytes, tail: Bytes): (r: Bytes)
    ensures |r| == |head| + |first| + |middle| + |second| + |tail|
  {
    head + first + middle + second + tail
  }

  /** Both inputs of a filled template are found in it, each where its
      placeholder stood, the first before the second. */
  lemma FillPlaces(head: Bytes, first: Bytes, middle: Bytes, second: Bytes, tail: Bytes)
    ensures var r := Fill(head, first, middle, second, tail);
      HasPrefix(r, head) && HasSuffix(r, tail) &&
      MatchesAt(r, first, |head|) && MatchesAt(r, second, |head| + |first| + |middle|) &&
      Contains(r, first) && Contains(r, second)
  {
    var r := Fill(head, first, middle, second, tail);
    var i := |head|;
    var j := |head| + |first| + |middle|;
    assert r[i..i + |first|] == first;
    assert r[j..j + |second|] == second;
    assert r[..|head|] == head;
    assert r[|r| - |tail|..] == tail;
    ContainsIntro(r, first, i);
    ContainsIntro(r, second, j);
  }

  /** buildCodeGenerationPrompt */
  function CodeGenerationPrompt(requirement: Bytes, context: Bytes): Bytes
  {
    Fill(CodeHead, requirement, CodeMiddle, context, CodeTail)
  }

  /** buildContinuePrompt */
  function ContinuePrompt(instruction: Bytes, context: Bytes): Bytes
  {
    Fill(ContinueHead, instruction, ContinueMiddle, context, ContinueTail)
  }

  /** buildFixPrompt */
  function FixPrompt(problem: Bytes, codeContext: Bytes): Bytes
  {
    Fill(FixHead, problem, FixMiddle, codeContext, FixTail)
  }

  /** The code-generation prompt holds the requirement and then the context. */
  lemma CodePromptHoldsInputs(requirement: Bytes, context: Bytes)
    ensures var p := CodeGenerationPrompt(requirement, context);
      Contains(p, requirement) && Contains(p, context) &&
      MatchesAt(p, requirement, |CodeHead|) && MatchesAt(p, context, |CodeHead| + |requirement| + |CodeMiddle|)
  {
    FillPlaces(CodeHead, requirement, CodeMiddle, context, CodeTail);
  }

  /** The continue prompt holds the instruction and then the context. */
  lemma ContinuePromptHoldsInputs(instruction: Bytes, context: Bytes)
    ensures var p := ContinuePrompt(instruction, context);
      Contains(p, instruction) && Contains(p, context) &&
      MatchesAt(p, instruction, |ContinueHead|) && MatchesAt(p, context, |ContinueHead| + |instruction| + |ContinueMiddle|)
  {
    FillPlaces(ContinueHead, instruction, ContinueMiddle, context, ContinueTail);
  }

  /** The fix prompt holds the problem and then the code context. */
  lemma FixPromptHoldsInputs(problem: Bytes, codeContext: Bytes)
    ensures var p := FixPrompt(problem, codeContext);
      Contains(p, problem) && Contains(p, codeContext) &&
      MatchesAt(p, problem, |FixHead|) && MatchesAt(p, codeContext, |FixHead| + |problem| + |FixMiddle|)
  {
    FillPlaces(FixHead, problem, FixMiddle, codeContext, FixTail);
  }

  /** Two fillings of one template with first inputs of the same length are
      equal only if both inputs are: each input is read back from its place.
      So a prompt determines the context once the request's length is known. */
  lemma FillInjective(head: Bytes, f1: Bytes, f2: Bytes, middle: Bytes, s1: Bytes, s2: Bytes, tail: Bytes)
    requires |f1| == |f2|
    requires Fill(head, f1, middle, s1, tail) == Fill(head, f2, middle, s2, tail)
    ensures f1 == f2 && s1 == s2
  {
    var p := Fill(head, f1, middle, s1, tail);
    FillPlaces(head, f1, middle, s1, tail);
    FillPlaces(head, f2, middle, s2, tail);
    var j := |head| + |f1| + |middle|;
    assert f1 == p[|head|..|head| + |f1|] == f2;
    assert s1 == p[j..j + |s1|] == s2;
  }
}
