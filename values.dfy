/**
 * Ruby values as they arrive in a lab configuration hash, and the few
 * core-library behaviours of String, nil and Hash that the VM entity uses.
 */
module RubyValues {
  import opened Wrappers

  /**
   * One Ruby object of a configuration. `Sym` is a Symbol, which prints as
   * its name and answers `[]` as that name would. `Scalar` stands for numbers
   * and the other leaf objects that have no `[]` taking a String; its `text`
   * is what their `to_s` prints.
   */
  datatype Value =
    | Nil
    | Bool(b: bool)
    | Str(s: string)
    | Sym(name: string)
    | Scalar(text: string)
    | List(items: seq<Value>)
    | Hash(entries: map<string, Value>)

  /** A configuration hash with string keys. */
  type Config = map<string, Value>

  /** The exceptions that end construction or serialization. */
  datatype Error =
    | InvalidVmid                      // raise "Invalid VMID"
    | InvalidCharacter(input: string)  // raise "WARNING! Invalid character in: #{input}"
    | UnknownDriverType                // raise "Unknown Driver Type"
    | RubyError                        // NoMethodError, TypeError or ArgumentError of a core class

  /** `config[key]`: a missing key reads as nil. */
  function Get(c: Config, key: string): Value {
    if key in c then c[key] else Nil
  }

  /** Ruby truthiness: only nil and false are falsy. */
  predicate Truthy(v: Value) {
    !(v.Nil? || v == Bool(false))
  }

  /** `a || b`. */
  function Or(a: Value, b: Value): (r: Value)
    ensures Truthy(r) <==> Truthy(a) || Truthy(b)
    ensures Truthy(a) ==> r == a
    ensures !Truthy(a) ==> r == b
  {
    if Truthy(a) then a else b
  }

  /**
   * `v.to_s`, as string interpolation uses it. Arrays and hashes print
   * through Ruby's `inspect`, which is library code and given as a parameter.
   */
  function ToS(v: Value, inspect: Value -> string): string {
    match v
    case Nil => ""
    case Bool(b) => if b then "true" else "false"
    case Str(s) => s
    case Sym(n) => n
    case Scalar(t) => t
    case List(_) => inspect(v)
    case Hash(_) => inspect(v)
  }

  /** Does `t` occur in `s` as a contiguous piece? */
  predicate Occurs(t: string, s: string)
    decreases |s|
  {
    t <= s || (s != [] && Occurs(t, s[1..]))
  }

  /** `t` stands in `s` at index `i`. */
  predicate OccursAtIndex(t: string, s: string, i: int) {
    0 <= i <= |s| - |t| && s[i..i + |t|] == t
  }

  /** The search `Occurs` performs agrees with the positional definition. */
  lemma {:induction false} OccursAt(t: string, s: string)
    ensures Occurs(t, s) <==> exists i :: OccursAtIndex(t, s, i)
    decreases |s|
  {
    if s != [] {
      OccursAt(t, s[1..]);
      if t <= s {
        assert OccursAtIndex(t, s, 0);
      } else if Occurs(t, s[1..]) {
        var i :| OccursAtIndex(t, s[1..], i);
        assert s[i + 1..i + 1 + |t|] == s[1..][i..i + |t|];
        assert OccursAtIndex(t, s, i + 1);
      }
      if exists i :: OccursAtIndex(t, s, i) {
        var i :| OccursAtIndex(t, s, i);
        if i == 0 {
          assert t <= s;
        } else {
          assert s[1..][i - 1..i - 1 + |t|] == s[i..i + |t|];
          assert OccursAtIndex(t, s[1..], i - 1);
        }
      }
    } else if t == [] {
      assert OccursAtIndex(t, s, 0);
    }
  }

  /** `String#[]` with a String argument: the argument when it occurs in `s`, nil otherwise. */
  function StringIndex(s: string, key: string): (r: Value)
    ensures r == Str(key) <==> exists i :: OccursAtIndex(key, s, i)
    ensures r.Nil? || r == Str(key)
  {
    OccursAt(key, s);
    if Occurs(key, s) then Str(key) else Nil
  }

  /**
   * `v[key]` for a string key: a hash looks the key up; a String, and a
   * Symbol through its name, answers as `StringIndex` does; nil, booleans,
   * numbers and arrays raise.
   */
  function Index(v: Value, key: string): (r: Result<Value, Error>)
    ensures r.Ok? <==> v.Hash? || v.Str? || v.Sym?
    ensures v.Hash? ==> r == Ok(Get(v.entries, key))
    ensures v.Str? ==> r == Ok(StringIndex(v.s, key))
    ensures v.Sym? ==> r == Ok(StringIndex(v.name, key))
  {
    match v
    case Hash(m) => Ok(Get(m, key))
    case Str(s) => Ok(StringIndex(s, key))
    case Sym(n) => Ok(StringIndex(n, key))
    case _ => Err(RubyError)
  }

  /** The characters `String#strip` removes: NUL, tab, line feed, vertical tab, form feed, carriage return, space. */
  predicate IsStripSpace(c: char) {
    c == '\0' || c == ' ' || '\t' <= c <= '\r'
  }

  function TrimStart(s: string): string
    decreases |s|
  {
    if s != [] && IsStripSpace(s[0]) then TrimStart(s[1..]) else s
  }

  function TrimEnd(s: string): string
    decreases |s|
  {
    if s != [] && IsStripSpace(s[|s| - 1]) then TrimEnd(s[..|s| - 1]) else s
  }

  /** `String#strip`. */
  function Strip(s: string): string {
    TrimEnd(TrimStart(s))
  }

  /** Every character of `s` is one `strip` removes. */
  predicate Blank(s: string) {
    forall i :: 0 <= i < |s| ==> IsStripSpace(s[i])
  }

  lemma {:induction false} TrimStartEmptyIffBlank(s: string)
    ensures TrimStart(s) == [] <==> Blank(s)
    ensures TrimStart(s) != [] ==> !IsStripSpace(TrimStart(s)[0])
    decreases |s|
  {
    if s != [] && IsStripSpace(s[0]) {
      TrimStartEmptyIffBlank(s[1..]);
      assert Blank(s) <==> Blank(s[1..]) by {
        if Blank(s[1..]) {
          forall i | 0 <= i < |s| ensures IsStripSpace(s[i]) {
            if i > 0 { assert s[i] == s[1..][i - 1]; }
          }
        }
      }
    }
  }

  lemma {:induction false} TrimEndKeepsHead(s: string)
    requires s != [] && !IsStripSpace(s[0])
    ensures TrimEnd(s) != [] && TrimEnd(s)[0] == s[0]
    decreases |s|
  {
    if IsStripSpace(s[|s| - 1]) {
      assert |s| > 1;
      TrimEndKeepsHead(s[..|s| - 1]);
    }
  }

  /** `s.strip.length > 0` exactly when `s` holds a character other than NUL or whitespace. */
  lemma StripEmptyIffBlank(s: string)
    ensures Strip(s) == [] <==> Blank(s)
  {
    TrimStartEmptyIffBlank(s);
    if TrimStart(s) != [] {
      TrimEndKeepsHead(TrimStart(s));
    }
  }

  /** `downcase` of one character, ASCII only. */
  function Lower(c: char): char {
    if 'A' <= c <= 'Z' then (c as int + 32) as char else c
  }

  /** `String#downcase!` applied in place, ASCII only. */
  function Downcase(s: string): (r: string)
    ensures |r| == |s|
    ensures forall i :: 0 <= i < |s| ==> r[i] == Lower(s[i])
  {
    if s == [] then [] else [Lower(s[0])] + Downcase(s[1..])
  }

  /** Lower-casing twice is lower-casing once. */
  lemma DowncaseIdempotent(s: string)
    ensures Downcase(Downcase(s)) == Downcase(s)
  {
    var d := Downcase(s);
    assert forall i :: 0 <= i < |s| ==> Downcase(d)[i] == d[i];
  }
}
