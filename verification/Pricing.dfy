/** Model prices of src/tiresias/tracking/pricing.py. Prices and costs are whole numbers of
    1e-9 USD, in which every price of the table is exact per token. */
module Pricing {
  import opened Wrappers

  /** Price of an input and of an output token. */
  datatype Price = Price(input: nat, output: nat)

  function PriceOf(model: string): Option<Price> {
    match model
    case "gpt-4o" => Some(Price(2500, 10000))
    case "gpt-4o-mini" => Some(Price(150, 600))
    case "gpt-4-turbo" => Some(Price(10000, 30000))
    case "gpt-4-turbo-preview" => Some(Price(10000, 30000))
    case "gpt-4" => Some(Price(30000, 60000))
    case "gpt-3.5-turbo" => Some(Price(500, 1500))
    case "gpt-3.5-turbo-0125" => Some(Price(500, 1500))
    case "o1" => Some(Price(15000, 60000))
    case "o1-mini" => Some(Price(3000, 12000))
    case "o3-mini" => Some(Price(1100, 4400))
    case "claude-3-5-sonnet-20241022" => Some(Price(3000, 15000))
    case "claude-3-5-haiku-20241022" => Some(Price(800, 4000))
    case "claude-3-opus-20240229" => Some(Price(15000, 75000))
    case "claude-3-sonnet-20240229" => Some(Price(3000, 15000))
    case "claude-3-haiku-20240307" => Some(Price(250, 1250))
    case "claude-sonnet-4-5" => Some(Price(3000, 15000))
    case "claude-sonnet-4-6" => Some(Price(3000, 15000))
    case "claude-opus-4-5" => Some(Price(15000, 75000))
    case "claude-haiku-4-5-20251001" => Some(Price(800, 4000))
    case "claude-opus-4-6" => Some(Price(15000, 75000))
    case "gemini-1.5-pro" => Some(Price(1250, 5000))
    case "gemini-1.5-flash" => Some(Price(75, 300))
    case "gemini-2.0-flash" => Some(Price(100, 400))
    case "gemini-2.0-flash-lite" => Some(Price(75, 300))
    case "gemini-1.0-pro" => Some(Price(500, 1500))
    case "llama-3.3-70b-versatile" => Some(Price(590, 790))
    case "llama-3.1-70b-versatile" => Some(Price(590, 790))
    case "llama-3.1-8b-instant" => Some(Price(50, 80))
    case "mixtral-8x7b-32768" => Some(Price(240, 240))
    case "gemma2-9b-it" => Some(Price(200, 200))
    case _ => None
  }

  type Fallback = seq<(string, string)>

  const GPT_ROWS: Fallback := [
    ("gpt-4o-mini", "gpt-4o-mini"),
    ("gpt-4o", "gpt-4o"),
    ("gpt-4-turbo", "gpt-4-turbo"),
    ("gpt-4", "gpt-4"),
    ("gpt-3.5-turbo", "gpt-3.5-turbo")]

  const O_ROWS: Fallback := [
    ("o3-mini", "o3-mini"),
    ("o1-mini", "o1-mini"),
    ("o1", "o1")]

  const CLAUDE_ROWS: Fallback := [
    ("claude-3-5-sonnet", "claude-3-5-sonnet-20241022"),
    ("claude-3-5-haiku", "claude-3-5-haiku-20241022"),
    ("claude-3-opus", "claude-3-opus-20240229"),
    ("claude-3-sonnet", "claude-3-sonnet-20240229"),
    ("claude-3-haiku", "claude-3-haiku-20240307"),
    ("claude-haiku-4-5", "claude-haiku-4-5-20251001"),
    ("claude-sonnet-4-6", "claude-sonnet-4-6"),
    ("claude-sonnet-4", "claude-sonnet-4-6"),
    ("claude-opus-4-6", "claude-opus-4-6"),
    ("claude-opus-4", "claude-opus-4-6")]

  const GEMINI_ROWS: Fallback := [
    ("gemini-2.0-flash-lite", "gemini-2.0-flash-lite"),
    ("gemini-2.0-flash", "gemini-2.0-flash"),
    ("gemini-1.5-pro", "gemini-1.5-pro"),
    ("gemini-1.5-flash", "gemini-1.5-flash"),
    ("gemini-1.0-pro", "gemini-1.0-pro")]

  const GROQ_ROWS: Fallback := [
    ("llama-3.3-70b", "llama-3.3-70b-versatile"),
    ("llama-3.1-70b", "llama-3.1-70b-versatile"),
    ("llama-3.1-8b", "llama-3.1-8b-instant"),
    ("mixtral-8x7b", "mixtral-8x7b-32768")]

  /** The table of the source, in its order. */
  const MODEL_PREFIX_FALLBACK: Fallback := GPT_ROWS + O_ROWS + CLAUDE_ROWS + GEMINI_ROWS + GROQ_ROWS

  /** The first entry of the table whose prefix starts the model name. */
  function FirstPrefix(table: Fallback, model: string): Option<string> {
    if table == [] then None
    else if table[0].0 <= model then Some(table[0].1)
    else FirstPrefix(table[1..], model)
  }

  function ResolveModel(model: string): Option<string> {
    if PriceOf(model).Some? then Some(model) else FirstPrefix(MODEL_PREFIX_FALLBACK, model)
  }

  /** Entry `i` has the longest prefix of `model` in the table. */
  ghost predicate IsLongest(table: Fallback, model: string, i: nat) {
    && i < |table| && table[i].0 <= model
    && forall j :: 0 <= j < |table| && table[j].0 <= model ==> |table[j].0| <= |table[i].0|
  }

  /** No earlier prefix starts a later one. */
  ghost predicate LongestFirst(table: Fallback) {
    forall i, j :: 0 <= i < j < |table| ==> !(table[i].0 <= table[j].0)
  }

  /** Of two prefixes of one string, the one that is not longer starts the other. */
  lemma {:induction false} TwoPrefixes(p: string, q: string, s: string)
    requires p <= s && q <= s
    ensures |p| <= |q| ==> p <= q
  {
    if |p| <= |q| {
      assert p == s[..|p|] && q == s[..|q|];
    }
  }

  /** In a table with longer prefixes first, the first match is the longest one. */
  lemma {:induction false} FirstIsLongest(table: Fallback, model: string)
    requires LongestFirst(table)
    ensures match FirstPrefix(table, model)
      case None => forall j :: 0 <= j < |table| ==> !(table[j].0 <= model)
      case Some(r) => exists i: nat :: IsLongest(table, model, i) && r == table[i].1
  {
    if table != [] {
      if table[0].0 <= model {
        forall j | 0 <= j < |table| && table[j].0 <= model ensures |table[j].0| <= |table[0].0| {
          TwoPrefixes(table[0].0, table[j].0, model);
        }
        assert IsLongest(table, model, 0);
      } else {
        FirstIsLongest(table[1..], model);
        var rest := FirstPrefix(table[1..], model);
        if rest.Some? {
          var i: nat :| IsLongest(table[1..], model, i) && rest.value == table[1..][i].1;
          assert table[i + 1] == table[1..][i];
          forall j | 0 <= j < |table| && table[j].0 <= model ensures |table[j].0| <= |table[i + 1].0| {
            assert j > 0 ==> table[j] == table[1..][j - 1];
          }
          assert IsLongest(table, model, i + 1);
        } else {
          forall j | 0 <= j < |table| ensures !(table[j].0 <= model) {
            assert j > 0 ==> table[j] == table[1..][j - 1];
          }
        }
      }
    }
  }

  predicate DiffersAt(p: string, q: string, d: nat) {
    d < |p| && (d >= |q| || p[d] != q[d])
  }

  /** Eight positions tell every two prefixes of one vendor apart. */
  predicate Apart(p: string, q: string) {
    || DiffersAt(p, q, 1) || DiffersAt(p, q, 4) || DiffersAt(p, q, 5) || DiffersAt(p, q, 8)
    || DiffersAt(p, q, 9) || DiffersAt(p, q, 11) || DiffersAt(p, q, 13) || DiffersAt(p, q, 16)
  }

  ghost predicate RowApart(rows: Fallback, i: nat)
    requires i < |rows|
  {
    forall j :: i < j < |rows| ==> Apart(rows[i].0, rows[j].0)
  }

  ghost predicate RowsApart(rows: Fallback) {
    forall i: nat :: i < |rows| ==> RowApart(rows, i)
  }

  /** How the prefixes of a block of rows begin, and what its models cost. */
  ghost predicate Block(rows: Fallback, heads: set<(char, char)>) {
    && LongestFirst(rows)
    && (forall i :: 0 <= i < |rows| ==> |rows[i].0| >= 2 && (rows[i].0[0], rows[i].0[1]) in heads)
    && (forall i :: 0 <= i < |rows| ==> PriceOf(rows[i].1).Some?)
  }

  lemma {:induction false} ApartBlock(rows: Fallback, heads: set<(char, char)>)
    requires RowsApart(rows)
    requires forall i :: 0 <= i < |rows| ==> |rows[i].0| >= 2 && (rows[i].0[0], rows[i].0[1]) in heads
    requires forall i :: 0 <= i < |rows| ==> PriceOf(rows[i].1).Some?
    ensures Block(rows, heads)
  {
    forall i, j | 0 <= i < j < |rows| ensures !(rows[i].0 <= rows[j].0) {
      assert RowApart(rows, i);
      assert Apart(rows[i].0, rows[j].0);
    }
  }

  lemma {:induction false} JoinBlocks(a: Fallback, b: Fallback, ha: set<(char, char)>, hb: set<(char, char)>)
    requires Block(a, ha) && Block(b, hb) && ha !! hb
    ensures Block(a + b, ha + hb)
  {
    var t := a + b;
    forall i, j | 0 <= i < j < |t| ensures !(t[i].0 <= t[j].0) {
      if i < |a| <= j {
        assert t[i] == a[i] && t[j] == b[j - |a|];
        assert (t[i].0[0], t[i].0[1]) in ha && (t[j].0[0], t[j].0[1]) in hb;
      } else if j < |a| {
        assert t[i] == a[i] && t[j] == a[j];
      } else {
        assert t[i] == b[i - |a|] && t[j] == b[j - |a|];
      }
    }
  }

  lemma {:induction false} GptBlock()
    ensures Block(GPT_ROWS, {('g', 'p')})
  {
    assert |GPT_ROWS| == 5;
    ApartBlock(GPT_ROWS, {('g', 'p')});
  }

  lemma {:induction false} OBlock()
    ensures Block(O_ROWS, {('o', '1'), ('o', '3')})
  {
    assert |O_ROWS| == 3;
    ApartBlock(O_ROWS, {('o', '1'), ('o', '3')});
  }

  lemma {:induction false} Claude3Apart(i: nat)
    requires i < 5
    ensures |CLAUDE_ROWS| == 10 && RowApart(CLAUDE_ROWS, i)
  {
    assert |CLAUDE_ROWS| == 10;
  }

  lemma {:induction false} Claude4Apart(i: nat)
    requires 5 <= i < 10
    ensures |CLAUDE_ROWS| == 10 && RowApart(CLAUDE_ROWS, i)
  {
    assert |CLAUDE_ROWS| == 10;
  }

  lemma {:induction false} ClaudeBlock()
    ensures Block(CLAUDE_ROWS, {('c', 'l')})
  {
    assert |CLAUDE_ROWS| == 10;
    forall i: nat | i < 10 ensures RowApart(CLAUDE_ROWS, i) {
      if i < 5 {
        Claude3Apart(i);
      } else {
        Claude4Apart(i);
      }
    }
    ApartBlock(CLAUDE_ROWS, {('c', 'l')});
  }

  lemma {:induction false} GeminiApart()
    ensures RowsApart(GEMINI_ROWS)
  {
    assert |GEMINI_ROWS| == 5;
  }

  lemma {:induction false} GeminiBlock()
    ensures Block(GEMINI_ROWS, {('g', 'e')})
  {
    assert |GEMINI_ROWS| == 5;
    GeminiApart();
    ApartBlock(GEMINI_ROWS, {('g', 'e')});
  }

  lemma {:induction false} GroqBlock()
    ensures Block(GROQ_ROWS, {('l', 'l'), ('m', 'i')})
  {
    assert |GROQ_ROWS| == 4;
    ApartBlock(GROQ_ROWS, {('l', 'l'), ('m', 'i')});
  }

  /** In the table of the source no earlier prefix starts a later one, and every entry is
      priced. */
  lemma {:induction false} TableIsLongestFirst()
    ensures LongestFirst(MODEL_PREFIX_FALLBACK)
    ensures forall i :: 0 <= i < |MODEL_PREFIX_FALLBACK| ==> PriceOf(MODEL_PREFIX_FALLBACK[i].1).Some?
  {
    GptBlock();
    OBlock();
    ClaudeBlock();
    GeminiBlock();
    GroqBlock();
    var gpt, o := {('g', 'p')}, {('o', '1'), ('o', '3')};
    var claude, gemini := {('c', 'l')}, {('g', 'e')};
    JoinBlocks(GPT_ROWS, O_ROWS, gpt, o);
    JoinBlocks(GPT_ROWS + O_ROWS, CLAUDE_ROWS, gpt + o, claude);
    JoinBlocks(GPT_ROWS + O_ROWS + CLAUDE_ROWS, GEMINI_ROWS, gpt + o + claude, gemini);
    JoinBlocks(GPT_ROWS + O_ROWS + CLAUDE_ROWS + GEMINI_ROWS, GROQ_ROWS, gpt + o + claude + gemini, {('l', 'l'), ('m', 'i')});
  }

  /** The resolution of a model name: itself when it is priced, otherwise the entry with the
      longest prefix of it, otherwise none. */
  ghost predicate IsResolution(model: string, r: Option<string>) {
    if PriceOf(model).Some? then r == Some(model)
    else if r.None? then forall j :: 0 <= j < |MODEL_PREFIX_FALLBACK| ==> !(MODEL_PREFIX_FALLBACK[j].0 <= model)
    else exists i: nat :: IsLongest(MODEL_PREFIX_FALLBACK, model, i) && r == Some(MODEL_PREFIX_FALLBACK[i].1)
  }

  /** First match over the table is longest-prefix match for every model string, and whatever
      it resolves to is priced. */
  lemma {:induction false} ResolutionIsLongestPrefix(model: string)
    ensures IsResolution(model, ResolveModel(model))
    ensures ResolveModel(model).Some? ==> PriceOf(ResolveModel(model).value).Some?
  {
    TableIsLongestFirst();
    FirstIsLongest(MODEL_PREFIX_FALLBACK, model);
  }

  // ----- rounding

  datatype Turn = Turn(model: string, promptTokens: nat, completionTokens: nat)

  function ExactCost(t: Turn): nat {
    match ResolveModel(t.model)
    case None => 0
    case Some(r) =>
      if PriceOf(r).None? then 0
      else t.promptTokens * PriceOf(r).value.input + t.completionTokens * PriceOf(r).value.output
  }

  /** Each prompt token costs the input price of the model that the name resolves to, and each
      completion token its output price, which is never the smaller of the two; a name that
      resolves to none costs nothing. */
  lemma {:induction false} EachTokenHasItsPrice(model: string, prompt: nat, completion: nat)
    ensures var none, r := ExactCost(Turn(model, 0, 0)), ResolveModel(model);
            var input := ExactCost(Turn(model, prompt + 1, completion)) - ExactCost(Turn(model, prompt, completion));
            var output := ExactCost(Turn(model, prompt, completion + 1)) - ExactCost(Turn(model, prompt, completion));
      && none == 0
      && (r.None? ==> input == output == 0)
      && (r.Some? ==> PriceOf(r.value) == Some(Price(input, output)) && input <= output)
  {
    ResolutionIsLongestPrefix(model);
    if ResolveModel(model).Some? {
      var p := PriceOf(ResolveModel(model).value).value;
      OutputIsDearer(ResolveModel(model).value);
      assert (prompt + 1) * p.input == prompt * p.input + p.input;
      assert (completion + 1) * p.output == completion * p.output + p.output;
    }
  }

  lemma OutputIsDearer(model: string)
    ensures PriceOf(model).Some? ==> PriceOf(model).value.input <= PriceOf(model).value.output
  {
  }

  /** To a multiple of 1e-8 USD, ties to the even one. */
  function Round8(x: nat): nat {
    var q, r := x / 10, x % 10;
    if r < 5 || (r == 5 && q % 2 == 0) then 10 * q else 10 * (q + 1)
  }

  function CalculateCost(t: Turn): nat {
    Round8(ExactCost(t))
  }

  function SumCosts(turns: seq<Turn>, cost: Turn -> nat): nat {
    if turns == [] then 0 else SumCosts(turns[..|turns| - 1], cost) + cost(turns[|turns| - 1])
  }

  lemma RoundingError(x: nat)
    ensures Round8(x) % 10 == 0 && x <= Round8(x) + 5 && Round8(x) <= x + 5
    ensures forall m: nat :: m % 10 == 0 ==> (if Round8(x) >= x then Round8(x) - x else x - Round8(x)) <= (if m >= x then m - x else x - m)
  {
  }

  function Rounded(): Turn -> nat {
    (t: Turn) => CalculateCost(t)
  }

  function Exact(): Turn -> nat {
    (t: Turn) => ExactCost(t)
  }

  /** Adding up `n` rounded turn costs is never more than `5n` units from the exact total. */
  lemma {:induction false} RoundedTotalIsClose(turns: seq<Turn>)
    ensures SumCosts(turns, Rounded()) <= SumCosts(turns, Exact()) + 5 * |turns|
    ensures SumCosts(turns, Exact()) <= SumCosts(turns, Rounded()) + 5 * |turns|
  {
    if turns != [] {
      RoundedTotalIsClose(turns[..|turns| - 1]);
      RoundingError(ExactCost(turns[|turns| - 1]));
    }
  }
}
