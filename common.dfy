/** Small vocabulary shared by every query tool: optional values, the tool result shape,
    and the way PHP decides whether a request parameter was "supplied". */
module Common {

  datatype Option<+T> = None | Some(value: T)

  /** What a query tool hands back: the shaped rows, or a fixed human-readable message
      returned in place of an empty list. */
  datatype Result<+R> = Rows(rows: seq<R>) | Message(text: string)

  function Min(a: int, b: int): (m: int)
    ensures m <= a && m <= b
    ensures m == a || m == b
  {
    if a <= b then a else b
  }

  /** `if ($request['x'] ?? null)` on a string: absent, "" and "0" are all falsy in PHP. */
  predicate TruthyText(s: Option<string>) {
    s.Some? && s.value != "" && s.value != "0"
  }

  /** `if ($request['x'] ?? null)` on a number: absent and 0 are falsy. */
  predicate TruthyNumber(n: Option<int>) {
    n.Some? && n.value != 0
  }

  /** `if ($request['x'] ?? false)` on a flag: only `true` switches the filter on. */
  predicate TruthyFlag(b: Option<bool>) {
    b == Some(true)
  }

  /** Drops a falsy text parameter, as the tools do before building a clause. */
  function KeepText(s: Option<string>): (r: Option<string>)
    ensures TruthyText(r) == TruthyText(s)
    ensures r.Some? <==> TruthyText(s)
    ensures r.Some? ==> r == s
  {
    if TruthyText(s) then s else None
  }

  function KeepNumber(n: Option<int>): (r: Option<int>)
    ensures TruthyNumber(r) == TruthyNumber(n)
    ensures r.Some? <==> TruthyNumber(n)
    ensures r.Some? ==> r == n
  {
    if TruthyNumber(n) then n else None
  }

  function KeepFlag(b: Option<bool>): (r: Option<bool>)
    ensures TruthyFlag(r) == TruthyFlag(b)
    ensures r.Some? <==> TruthyFlag(b)
  {
    if TruthyFlag(b) then b else None
  }
}
