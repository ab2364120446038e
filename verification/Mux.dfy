/** console-mux.c: the select lines of the mux. */
module MuxLines {
  import opened Modular

  function Pow2(n: nat): (m: nat)
    ensures 0 < m
  {
    if n == 0 then 1 else 2 * Pow2(n - 1)
  }

  /** (x >> k) & 1 */
  predicate Bit(x: nat, k: nat) {
    if k == 0 then x % 2 == 1 else Bit(x / 2, k - 1)
  }

  /** The number the lines spell, least significant first. */
  function Spelled(lines: seq<bool>): nat {
    if lines == [] then 0 else (if lines[0] then 1 else 0) + 2 * Spelled(lines[1..])
  }

  ghost predicate Shows(lines: seq<bool>, x: nat) {
    forall k :: 0 <= k < |lines| ==> lines[k] == Bit(x, k)
  }

  /** The kernel's answer to attempt `k` at setting a line; those past the end of the list succeed. */
  predicate Accepts(answers: seq<bool>, k: nat) { k < |answers| ==> answers[k] }

  /** One of the `n` attempts from `from` on is refused. */
  ghost predicate Refuses(answers: seq<bool>, from: nat, n: nat) {
    exists k :: from <= k < from + n && !Accepts(answers, k)
  }

  /** How many of the first `n` attempts are. */
  ghost function Refusals(answers: seq<bool>, n: nat): nat {
    if n == 0 then 0 else Refusals(answers, n - 1) + if Accepts(answers, n - 1) then 0 else 1
  }

  lemma {:induction false} NeverRefused(answers: seq<bool>, n: nat)
    requires false !in answers
    ensures Refusals(answers, n) == 0
  {
    if n > 0 {
      NeverRefused(answers, n - 1);
    }
  }

  /** The lines are the N-bit number taken from mux-index. */
  lemma {:induction false} LinesSpellIndex(lines: seq<bool>, x: nat)
    requires Shows(lines, x)
    ensures Spelled(lines) == x % Pow2(|lines|)
  {
    if lines == [] {
      Quotient(x, 1, x, 0);
    } else {
      forall k | 0 <= k < |lines[1..]| ensures lines[1..][k] == Bit(x / 2, k) {
        assert lines[k + 1] == Bit(x, k + 1);
      }
      LinesSpellIndex(lines[1..], x / 2);
      assert lines[0] == Bit(x, 0);
      Halve(x, Pow2(|lines| - 1));
    }
  }

  lemma Halve(x: nat, m: nat)
    requires 0 < m
    ensures x % (2 * m) == x % 2 + 2 * ((x / 2) % m)
  {
    var y := x / 2;
    var q, r := y / m, y % m;
    assert x == 2 * y + x % 2;
    assert y == m * q + r;
    assert 2 * (m * q) == (2 * m) * q;
    Quotient(x, 2 * m, q, 2 * r + x % 2);
  }
}

/** console-mux.c: the comma-separated list of GPIO names. */
module GpioNames {
  import opened Seqs

  function Commas(s: string): nat {
    if s == "" then 0 else Commas(s[..|s| - 1]) + if s[|s| - 1] == ',' then 1 else 0
  }

  lemma {:induction false} CommasAdd(s: string, t: string)
    ensures Commas(s + t) == Commas(s) + Commas(t)
  {
    if t == "" {
      assert s + t == s;
    } else {
      CommasAdd(s, t[..|t| - 1]);
      assert (s + t)[..|s + t| - 1] == s + t[..|t| - 1];
    }
  }

  /** strtokcnt(str, ','): the size of the GPIO array. */
  method CountTokens(s: string) returns (n: nat)
    ensures n == 1 + Commas(s)
  {
    n := 1;
    for i := 0 to |s|
      invariant n == 1 + Commas(s[..i])
    {
      assert s[..i + 1][..i] == s[..i];
      if s[i] == ',' {
        n := n + 1;
      }
    }
    assert s[..|s|] == s;
  }

  predicate IsName(name: string) { name != "" && ',' !in name }

  ghost predicate AllNames(names: seq<string>) {
    forall i :: 0 <= i < |names| ==> IsName(names[i])
  }

  /** Every name followed by a comma. */
  ghost function Listing(names: seq<string>): string {
    if names == [] then "" else Listing(names[..|names| - 1]) + names[|names| - 1] + ","
  }

  /** No empty field: no comma at the start, none after another comma. */
  ghost predicate NoEmptyField(s: string) {
    forall k :: 0 <= k < |s| && s[k] == ',' ==> 0 < k && s[k - 1] != ','
  }

  /** A whole entry of the list, from the start or a comma to the end or a comma. */
  ghost predicate Field(s: string, a: nat, b: nat) {
    && a < b <= |s| && IsName(s[a..b])
    && (a == 0 || s[a - 1] == ',')
    && (b == |s| || s[b] == ',')
  }

  /** extract_mux_gpio_name: the text up to the next comma, and the cursor past it. */
  method ExtractName(s: string, current: nat) returns (name: Option<string>, cursor: nat)
    requires current < |s|
    ensures name.None? <==> s[current] == ','
    ensures name.None? ==> cursor == current
    ensures name.Some? ==> IsName(name.value) && current < cursor <= |s|
    ensures name.Some? ==> s[current..cursor] == name.value + "," || (cursor == |s| && s[current..] == name.value)
    ensures name.Some? && (current == 0 || s[current - 1] == ',') ==>
              current + |name.value| <= |s| && name.value == s[current..current + |name.value|]
              && Field(s, current, current + |name.value|)
  {
    var comma := current;
    while comma < |s| && s[comma] != ','
      invariant current <= comma <= |s| && ',' !in s[current..comma]
    {
      comma := comma + 1;
    }
    if comma == current {
      return None, current;
    }
    name := Some(s[current..comma]);
    cursor := if comma < |s| then comma + 1 else comma;
    if comma < |s| {
      assert s[current..comma + 1] == s[current..comma] + [s[comma]];
    }
  }

  /**
   * console_mux_request_gpio_lines.  `found` says which lines the GPIO library knows and
   * lets us drive.  The array of CountTokens(s) entries is never overrun; on success the
   * names, joined by commas, are the configuration up to one trailing comma; and the only
   * lists refused for their shape are those with an empty field.
   */
  method RequestLines(s: string, found: string -> bool) returns (names: Option<seq<string>>)
    ensures names.Some? ==> AllNames(names.value) && forall i :: 0 <= i < |names.value| ==> found(names.value[i])
    ensures names.Some? ==> s == Listing(names.value) || s + "," == Listing(names.value)
    ensures names.Some? ==> NoEmptyField(s)
    ensures names.None? && NoEmptyField(s) ==> exists a: nat, b: nat :: Field(s, a, b) && !found(s[a..b])
  {
    hide NoEmptyField, Field;
    var capacity := CountTokens(s);
    var taken: seq<string> := [];
    var current := 0;
    NothingTaken(s);
    while current < |s|
      invariant current <= |s| && Taken(s, current, taken)
      invariant forall i :: 0 <= i < |taken| ==> found(taken[i])
    {
      RoomForOne(s, current, taken);
      assert |taken| < capacity;
      var name, cursor := ExtractName(s, current);
      if name.None? {
        EmptyField(s, current, taken);
        return None;
      }
      if !found(name.value) {
        return None;
      }
      TakeOne(s, current, taken, name.value, cursor);
      taken := taken + [name.value];
      current := cursor;
    }
    assert s[..|s|] == s;
    return Some(taken);
  }

  /** The names taken so far are what precedes the cursor. */
  ghost predicate Taken(s: string, current: nat, taken: seq<string>)
    requires current <= |s|
  {
    && AllNames(taken)
    && (s[..current] == Listing(taken) || (current == |s| && s + "," == Listing(taken)))
    && (current < |s| ==> s[..current] == Listing(taken) && (current == 0 || s[current - 1] == ','))
    && NoEmptyField(s[..current])
  }

  lemma NothingTaken(s: string)
    ensures Taken(s, 0, [])
  {
  }

  lemma RoomForOne(s: string, current: nat, taken: seq<string>)
    requires current < |s| && Taken(s, current, taken)
    ensures |taken| < 1 + Commas(s)
  {
    ListingCommas(taken);
    CommasAdd(s[..current], s[current..]);
    assert s == s[..current] + s[current..];
  }

  lemma EmptyField(s: string, current: nat, taken: seq<string>)
    requires current < |s| && Taken(s, current, taken) && s[current] == ','
    ensures !NoEmptyField(s)
  {
  }

  lemma TakeOne(s: string, current: nat, taken: seq<string>, name: string, cursor: nat)
    requires current < cursor <= |s| && Taken(s, current, taken) && IsName(name)
    requires s[current..cursor] == name + "," || (cursor == |s| && s[current..] == name)
    ensures Taken(s, cursor, taken + [name])
  {
    hide NoEmptyField;
    assert (taken + [name])[..|taken|] == taken;
    assert s[..cursor] == s[..current] + s[current..cursor];
    FieldAdded(s, current, cursor, name);
    if s[current..cursor] != name + "," {
      assert s == s[..current] + name;
    }
  }

  lemma {:induction false} ListingCommas(names: seq<string>)
    requires AllNames(names)
    ensures Commas(Listing(names)) == |names|
  {
    if names != [] {
      var front, last := names[..|names| - 1], names[|names| - 1];
      ListingCommas(front);
      CommasAdd(Listing(front), last);
      CommasAdd(Listing(front) + last, ",");
      NoCommas(last);
      assert ","[..0] == "";
    }
  }

  lemma {:induction false} NoCommas(s: string)
    requires ',' !in s
    ensures Commas(s) == 0
  {
    if s != "" {
      NoCommas(s[..|s| - 1]);
    }
  }

  lemma FieldAdded(s: string, a: nat, b: nat, name: string)
    requires a < b <= |s| && NoEmptyField(s[..a]) && IsName(name)
    requires s[a..b] == name + "," || (b == |s| && s[a..] == name)
    ensures NoEmptyField(s[..b])
    ensures b < |s| ==> s[b - 1] == ','
  {
    forall k | 0 <= k < b && s[..b][k] == ',' ensures 0 < k && s[..b][k - 1] != ',' {
      if k < a {
        assert s[..a][k] == ',';
      } else {
        assert s[a..b][k - a] == ',';
        assert k - a == |name|;
        assert s[a..b][k - 1 - a] == name[k - 1 - a];
      }
    }
  }

  /** The listing determines the names: reading back what was written gives it back. */
  lemma {:induction false} ListingInjective(a: seq<string>, b: seq<string>)
    requires AllNames(a) && AllNames(b) && Listing(a) == Listing(b)
    ensures a == b
  {
    ListingCommas(a);
    ListingCommas(b);
    if a != [] {
      var fa, la, fb, lb := a[..|a| - 1], a[|a| - 1], b[..|b| - 1], b[|b| - 1];
      LastField(Listing(fa), la, Listing(fb), lb);
      ListingInjective(fa, fb);
    }
  }

  lemma LastField(s: string, name: string, t: string, other: string)
    requires IsName(name) && IsName(other) && s + name + "," == t + other + ","
    requires (s == "" || s[|s| - 1] == ',') && (t == "" || t[|t| - 1] == ',')
    ensures s == t && name == other
  {
    var u := s + name + ",";
    assert u[..|s|] == s && u[..|t|] == t;
    assert u[|s|..|u| - 1] == name && u[|t|..|u| - 1] == other;
  }
}
