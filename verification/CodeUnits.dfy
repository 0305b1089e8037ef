// Text as JavaScript reads it: its white space, and strings compared by UTF-16 code units, the order its `sort` uses on
// strings, with the proof that this is a total order.
module CodeUnits {
  /** JavaScript's `\s`. */
  predicate Space(c: char)
  {
    || c == ' ' || '\t' <= c <= '\r' || c == '\U{00A0}' || c == '\U{1680}' || '\U{2000}' <= c <= '\U{200A}'
    || c == '\U{2028}' || c == '\U{2029}' || c == '\U{202F}' || c == '\U{205F}' || c == '\U{3000}' || c == '\U{FEFF}'
  }

  function Units(s: string): seq<nat>
  {
    seq(|s|, i requires 0 <= i < |s| => s[i] as nat)
  }

  /** The order of JavaScript's `sort` on strings: the first code unit that differs decides. */
  predicate Before(a: seq<nat>, b: seq<nat>)
  {
    if b == [] then false
    else a == [] || a[0] < b[0] || (a[0] == b[0] && Before(a[1..], b[1..]))
  }

  lemma {:induction false} Total(a: seq<nat>, b: seq<nat>)
    requires a != b
    ensures Before(a, b) <==> !Before(b, a)
  {
    if a != [] && b != [] && a[0] == b[0] {
      assert a == [a[0]] + a[1..] && b == [b[0]] + b[1..];
      Total(a[1..], b[1..]);
    }
  }

  lemma {:induction false} Irreflexive(a: seq<nat>)
    ensures !Before(a, a)
  {
    if a != [] { Irreflexive(a[1..]); }
  }

  lemma {:induction false} Transitive(a: seq<nat>, b: seq<nat>, c: seq<nat>)
    requires Before(a, b) && Before(b, c)
    ensures Before(a, c)
  {
    if a != [] && a[0] == b[0] == c[0] { Transitive(a[1..], b[1..], c[1..]); }
  }

  /** The white space of ECMAScript, by code point. */
  lemma {:induction false} SpaceIs(c: char)
    ensures Space(c) <==>
      || 9 <= c as int <= 13 || c as int == 32 || c as int == 160 || c as int == 5760 || 8192 <= c as int <= 8202
      || c as int == 8232 || c as int == 8233 || c as int == 8239 || c as int == 8287 || c as int == 12288 || c as int == 65279
  {}
}
