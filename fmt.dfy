/**
  The `#{...}` shell-interpolation scanner of src/docker/fmt.rs.

  `Interpolate` is a recursive-descent reading of the scanner's behaviour;
  `ShellInterpolate` is the scanner itself, a single left-to-right pass of a
  three-state machine, and is proved to compute exactly `Interpolate`. The
  callback `f` (the shell in the running program) is a function parameter;
  `Calls` lists the expressions the scanner hands to it, in order.
*/
module Fmt {
  import opened Wrappers

  /** The scanner's states: copying text, just after a `#`, inside `#{`. */
  datatype State = Normal | Hex | Extract

  /** Index of the first `}` in `s`, or `|s|` when there is none. */
  function CloseAt(s: string): (k: nat)
    ensures k <= |s|
    ensures k < |s| ==> s[k] == '}'
    ensures forall j | 0 <= j < k :: s[j] != '}'
  {
    if s == [] || s[0] == '}' then 0 else 1 + CloseAt(s[1..])
  }

  /** Prefix a successful result with `p`; an error passes through. */
  function Prepend<E>(p: string, r: Result<string, E>): Result<string, E>
  {
    match r
    case Ok(s) => Ok(p + s)
    case Err(e) => Err(e)
  }

  /**
    What interpolating `raw` produces. Ordinary characters (including a `{`
    or `}` outside a region) are copied; `##` is one `#`; `#` before any
    other character but `{` is kept with that character; `#{x}` with `x`
    free of `}` becomes `f(x)`, and an error from `f` ends the whole call. A
    trailing lone `#` and an unterminated `#{...` produce nothing.
  */
  function Interpolate<E>(raw: string, f: string -> Result<string, E>): (r: Result<string, E>)
    decreases |raw|
  {
    if raw == [] then Ok([])
    else if raw[0] != '#' then
      assert [raw[0]] + raw[1..] == raw;
      Prepend([raw[0]], Interpolate(raw[1..], f))
    else if |raw| == 1 then Ok([])
    else if raw[1] == '#' then Prepend("#", Interpolate(raw[2..], f))
    else if raw[1] == '{' then
      var body := raw[2..];
      var k := CloseAt(body);
      if k == |body| then Ok([])
      else
        match f(body[..k])
        case Err(e) => Err(e)
        case Ok(v) => Prepend(v, Interpolate(body[k + 1..], f))
    else Prepend(raw[..2], Interpolate(raw[2..], f))
  }

  /** The closed `#{...}` regions of `raw`, left to right, as the scanner sees them. */
  function Regions(raw: string): seq<string>
    decreases |raw|
  {
    if raw == [] then []
    else if raw[0] != '#' then Regions(raw[1..])
    else if |raw| == 1 then []
    else if raw[1] == '{' then
      var body := raw[2..];
      var k := CloseAt(body);
      if k == |body| then [] else [body[..k]] + Regions(body[k + 1..])
    else Regions(raw[2..])
  }

  /** The arguments `f` is called with while interpolating `raw`: the regions in order, up to and including the first that fails. */
  function Calls<E>(raw: string, f: string -> Result<string, E>): seq<string>
    decreases |raw|
  {
    if raw == [] then []
    else if raw[0] != '#' then Calls(raw[1..], f)
    else if |raw| == 1 then []
    else if raw[1] == '{' then
      var body := raw[2..];
      var k := CloseAt(body);
      if k == |body| then []
      else [body[..k]] + (if f(body[..k]).Ok? then Calls(body[k + 1..], f) else [])
    else Calls(raw[2..], f)
  }

  /** The text the scanner has consumed but not yet emitted, in front of the unread input `rest`. */
  function Pending(state: State, extracted: string, rest: string): string
  {
    match state
    case Normal => rest
    case Hex => "#" + rest
    case Extract => "#{" + extracted + rest
  }

  /** The scanner of src/docker/fmt.rs: one pass over `raw`, emitting into `interpolated` and collecting a region into `extracted`. */
  method ShellInterpolate<E>(raw: string, f: string -> Result<string, E>)
    returns (r: Result<string, E>, ghost calls: seq<string>)
    ensures r == Interpolate(raw, f)
    ensures calls == Calls(raw, f)
  {
    var interpolated: string := "";
    var extracted: string := "";
    var state := Normal;
    calls := [];
    assert Pending(state, extracted, raw[0..]) == raw;
    PrependNothing(Interpolate(raw, f));
    for i := 0 to |raw|
      invariant state != Extract ==> extracted == []
      invariant '}' !in extracted
      invariant Interpolate(raw, f) == Prepend(interpolated, Interpolate(Pending(state, extracted, raw[i..]), f))
      invariant Calls(raw, f) == calls + Calls(Pending(state, extracted, raw[i..]), f)
    {
      assert raw[i..] == [raw[i]] + raw[i + 1..];
      var failure: Option<E>;
      ghost var called: seq<string>;
      state, extracted, interpolated, failure, called := Step(raw[i], state, extracted, interpolated, f, raw[i + 1..]);
      if called == [] {
        assert calls + called == calls;
      }
      calls := calls + called;
      if failure.Some? {
        r := Err(failure.value);
        return;
      }
    }
    UnfoldEnd(state, extracted, f);
    assert calls + [] == calls && interpolated + [] == interpolated;
    r := Ok(interpolated);
  }

  /**
    The scanner's reaction to the character `c` (the body of the loop): the
    new state and buffers, or the error of `f` when `c` closes a region whose
    call fails. `rest` is the input still to come after `c`; `called` holds
    the expression handed to `f`, if any.
  */
  method Step<E>(c: char, state: State, extracted: string, interpolated: string,
                 f: string -> Result<string, E>, ghost rest: string)
    returns (state': State, extracted': string, interpolated': string, failure: Option<E>, ghost called: seq<string>)
    requires state != Extract ==> extracted == []
    requires '}' !in extracted
    ensures failure.None? ==> state' != Extract ==> extracted' == []
    ensures '}' !in extracted'
    ensures failure.None? ==>
      Prepend(interpolated, Interpolate(Pending(state, extracted, [c] + rest), f))
        == Prepend(interpolated', Interpolate(Pending(state', extracted', rest), f))
    ensures failure.Some? ==> Interpolate(Pending(state, extracted, [c] + rest), f) == Err(failure.value)
    ensures failure.None? && called == [] ==>
      Calls(Pending(state, extracted, [c] + rest), f) == Calls(Pending(state', extracted', rest), f)
    ensures failure.None? && called != [] ==>
      Calls(Pending(state, extracted, [c] + rest), f) == called + Calls(Pending(state', extracted', rest), f)
    ensures failure.Some? ==> Calls(Pending(state, extracted, [c] + rest), f) == called
  {
    ghost var pending := Pending(state, extracted, [c] + rest);
    state', extracted', interpolated', failure, called := state, extracted, interpolated, None, [];
    if c == '#' {
      match state
      case Normal =>
        assert pending == Pending(Hex, [], rest);
        state' := Hex;
      case Hex =>
        Emits(interpolated, pending, "#", rest, f) by { assert pending == ['#', c] + rest; UnfoldHex(c, rest, f); }
        interpolated' := interpolated + "#";
        state' := Normal;
      case Extract =>
        assert pending == Pending(Extract, extracted + "#", rest);
        extracted' := extracted + "#";
    } else if c == '{' {
      match state
      case Normal =>
        Emits(interpolated, pending, "{", rest, f) by { UnfoldPlain(c, rest, f); }
        interpolated' := interpolated + "{";
      case Hex =>
        assert pending == Pending(Extract, [], rest);
        state' := Extract;
      case Extract =>
        assert pending == Pending(Extract, extracted + "{", rest);
        extracted' := extracted + "{";
    } else if c == '}' {
      match state
      case Normal =>
        Emits(interpolated, pending, "}", rest, f) by { UnfoldPlain(c, rest, f); }
        interpolated' := interpolated + "}";
      case Hex =>
        Emits(interpolated, pending, "#}", rest, f) by { assert pending == ['#', c] + rest; UnfoldHex(c, rest, f); }
        state' := Normal;
        interpolated' := interpolated + "#}";
      case Extract =>
        assert pending == "#{" + extracted + "}" + rest;
        UnfoldRegion(extracted, rest, f);
        state' := Normal;
        var v := f(extracted);
        called := [extracted];
        if v.Err? {
          failure := Some(v.error);
        } else {
          Splices(interpolated, pending, extracted, v.value, rest, [], f);
          interpolated' := interpolated + v.value;
          extracted' := [];
        }
    } else {
      match state
      case Normal =>
        Emits(interpolated, pending, [c], rest, f) by { UnfoldPlain(c, rest, f); }
        interpolated' := interpolated + [c];
      case Hex =>
        Emits(interpolated, pending, ['#', c], rest, f) by { assert pending == ['#', c] + rest; UnfoldHex(c, rest, f); }
        state' := Normal;
        interpolated' := interpolated + ['#', c];
      case Extract =>
        assert pending == Pending(Extract, extracted + [c], rest);
        extracted' := extracted + [c];
    }
  }

  /** One scanner step that emits `emitted` and leaves `rest` to be read in the normal state. */
  lemma Emits<E>(out: string, pending: string, emitted: string, rest: string, f: string -> Result<string, E>)
    requires Interpolate(pending, f) == Prepend(emitted, Interpolate(rest, f))
    requires Calls(pending, f) == Calls(rest, f)
    ensures Prepend(out, Interpolate(pending, f)) == Prepend(out + emitted, Interpolate(rest, f))
    ensures Calls(pending, f) == Calls(Pending(Normal, [], rest), f)
  {
    PrependTwice(out, emitted, Interpolate(rest, f));
  }

  /** One scanner step that closes region `x` with `f(x) == Ok(v)`. */
  lemma Splices<E>(out: string, pending: string, x: string, v: string, rest: string, calls: seq<string>, f: string -> Result<string, E>)
    requires f(x) == Ok(v)
    requires Interpolate(pending, f) == Prepend(v, Interpolate(rest, f))
    requires Calls(pending, f) == [x] + Calls(rest, f)
    ensures Prepend(out, Interpolate(pending, f)) == Prepend(out + v, Interpolate(Pending(Normal, [], rest), f))
    ensures calls + Calls(pending, f) == (calls + [x]) + Calls(Pending(Normal, [], rest), f)
  {
    PrependTwice(out, v, Interpolate(rest, f));
  }

  lemma PrependNothing<E>(r: Result<string, E>)
    ensures Prepend([], r) == r
  {
    if r.Ok? { assert [] + r.value == r.value; }
  }

  lemma PrependTwice<E>(p: string, q: string, r: Result<string, E>)
    ensures Prepend(p, Prepend(q, r)) == Prepend(p + q, r)
  {
    match r
    case Ok(s) => assert p + (q + s) == (p + q) + s;
    case Err(_) =>
  }

  /** A character other than `#` is copied and calls nothing. */
  lemma UnfoldPlain<E>(c: char, rest: string, f: string -> Result<string, E>)
    requires c != '#'
    ensures Interpolate([c] + rest, f) == Prepend([c], Interpolate(rest, f))
    ensures Calls([c] + rest, f) == Calls(rest, f)
  {
    assert ([c] + rest)[1..] == rest;
  }

  /** `#` followed by anything but `{`: `##` is one `#`, otherwise both characters are kept. */
  lemma UnfoldHex<E>(c: char, rest: string, f: string -> Result<string, E>)
    requires c != '{'
    ensures Interpolate(['#', c] + rest, f) == Prepend(if c == '#' then "#" else ['#', c], Interpolate(rest, f))
    ensures Calls(['#', c] + rest, f) == Calls(rest, f)
  {
    var s := ['#', c] + rest;
    assert s[2..] == rest && s[..2] == ['#', c];
  }

  /** A closed region `#{x}` hands `x` to `f` and splices its result. */
  lemma UnfoldRegion<E>(x: string, rest: string, f: string -> Result<string, E>)
    requires '}' !in x
    ensures Interpolate("#{" + x + "}" + rest, f)
         == if f(x).Err? then Err(f(x).error) else Prepend(f(x).value, Interpolate(rest, f))
    ensures Calls("#{" + x + "}" + rest, f) == [x] + (if f(x).Ok? then Calls(rest, f) else [])
    ensures Regions("#{" + x + "}" + rest) == [x] + Regions(rest)
  {
    var s := "#{" + x + "}" + rest;
    var body := s[2..];
    assert s[0] == '#' && s[1] == '{';
    assert body == x + ("}" + rest);
    assert ("}" + rest)[0] == '}';
    CloseAtAfter(x, "}" + rest);
    assert body[..|x|] == x;
    assert body[|x| + 1..] == rest;
  }

  lemma {:induction false} CloseAtAfter(x: string, s: string)
    requires '}' !in x
    ensures CloseAt(x + s) == |x| + CloseAt(s)
  {
    if x == [] {
      assert x + s == s;
    } else {
      assert (x + s)[0] == x[0] && (x + s)[1..] == x[1..] + s;
      CloseAtAfter(x[1..], s);
    }
  }

  /** At the end of the input, a pending `#` or `#{...` produces nothing. */
  lemma UnfoldEnd<E>(state: State, extracted: string, f: string -> Result<string, E>)
    requires '}' !in extracted
    ensures Interpolate(Pending(state, extracted, []), f) == Ok([])
    ensures Calls(Pending(state, extracted, []), f) == []
  {
    if state == Extract {
      var s := "#{" + extracted + [];
      assert s[2..] == extracted;
      CloseAtAfter(extracted, []);
    }
  }

  // ---------------------------------------------------------------------
  // Properties of the scanner

  /** Text without `#` is copied and the callback is never reached. */
  lemma {:induction false} PlainPrefix<E>(p: string, s: string, f: string -> Result<string, E>)
    requires '#' !in p
    ensures Interpolate(p + s, f) == Prepend(p, Interpolate(s, f))
    ensures Calls(p + s, f) == Calls(s, f)
    ensures Regions(p + s) == Regions(s)
  {
    if p == [] {
      assert p + s == s;
      match Interpolate(s, f)
      case Ok(t) => assert p + t == t;
      case Err(_) =>
    } else {
      assert p + s == [p[0]] + (p[1..] + s);
      assert ([p[0]] + (p[1..] + s))[1..] == p[1..] + s;
      UnfoldPlain(p[0], p[1..] + s, f);
      PlainPrefix(p[1..], s, f);
      PrependTwice([p[0]], p[1..], Interpolate(s, f));
      assert [p[0]] + p[1..] == p;
    }
  }

  /** With no `#` at all, the output is the input and `f` is never called. */
  lemma NoHashUnchanged<E>(raw: string, f: string -> Result<string, E>)
    requires '#' !in raw
    ensures Interpolate(raw, f) == Ok(raw)
    ensures Calls(raw, f) == []
  {
    PlainPrefix(raw, [], f);
    assert raw + [] == raw;
  }

  /** `##` outside a region emits exactly one `#` and scanning resumes as normal. */
  lemma EscapedHash<E>(p: string, s: string, f: string -> Result<string, E>)
    requires '#' !in p
    ensures Interpolate(p + "##" + s, f) == Prepend(p + "#", Interpolate(s, f))
    ensures Calls(p + "##" + s, f) == Calls(s, f)
  {
    assert p + "##" + s == p + (['#', '#'] + s);
    PlainPrefix(p, ['#', '#'] + s, f);
    UnfoldHex('#', s, f);
    PrependTwice(p, "#", Interpolate(s, f));
  }

  /** `#` followed by `c`, with `c` neither `#` nor `{` (so `#}` too), emits `#c` literally. */
  lemma LiteralHash<E>(p: string, c: char, s: string, f: string -> Result<string, E>)
    requires '#' !in p
    requires c != '#' && c != '{'
    ensures Interpolate(p + ['#', c] + s, f) == Prepend(p + ['#', c], Interpolate(s, f))
    ensures Calls(p + ['#', c] + s, f) == Calls(s, f)
  {
    assert p + ['#', c] + s == p + (['#', c] + s);
    PlainPrefix(p, ['#', c] + s, f);
    UnfoldHex(c, s, f);
    PrependTwice(p, ['#', c], Interpolate(s, f));
  }

  /**
    `#{x}` is replaced by `f(x)`: the expression may hold `#` and `{`, the
    first `}` closes it, text around it is kept, and when `f` fails the call
    returns that error without calling `f` on anything after it.
  */
  lemma Substitute<E>(p: string, x: string, s: string, f: string -> Result<string, E>)
    requires '#' !in p && '}' !in x
    ensures Interpolate(p + "#{" + x + "}" + s, f)
         == if f(x).Err? then Err(f(x).error) else Prepend(p + f(x).value, Interpolate(s, f))
    ensures Calls(p + "#{" + x + "}" + s, f) == [x] + (if f(x).Ok? then Calls(s, f) else [])
  {
    assert p + "#{" + x + "}" + s == p + ("#{" + x + "}" + s);
    PlainPrefix(p, "#{" + x + "}" + s, f);
    UnfoldRegion(x, s, f);
    if f(x).Ok? {
      PrependTwice(p, f(x).value, Interpolate(s, f));
    }
  }

  /** An input ending in a lone `#` or an unterminated `#{x` drops that tail and calls nothing for it. */
  lemma DroppedTail<E>(p: string, x: string, f: string -> Result<string, E>)
    requires '#' !in p && '}' !in x
    ensures Interpolate(p + "#", f) == Ok(p)
    ensures Interpolate(p + "#{" + x, f) == Ok(p)
    ensures Calls(p + "#", f) == [] && Calls(p + "#{" + x, f) == []
  {
    PlainPrefix(p, "#", f);
    UnfoldEnd(Hex, [], f);
    assert Pending(Hex, [], []) == "#";
    assert p + "#{" + x == p + ("#{" + x);
    PlainPrefix(p, "#{" + x, f);
    UnfoldEnd(Extract, x, f);
    assert Pending(Extract, x, []) == "#{" + x;
    assert p + [] == p;
  }

  /** A closed region at the head of `raw`, written out as `#{x}rest`. */
  lemma SplitRegion(raw: string)
    requires |raw| >= 2 && raw[0] == '#' && raw[1] == '{'
    requires CloseAt(raw[2..]) < |raw[2..]|
    ensures var k := CloseAt(raw[2..]);
      raw == "#{" + raw[2..][..k] + "}" + raw[2..][k + 1..]
  {
    var body, k := raw[2..], CloseAt(raw[2..]);
    assert body == body[..k] + [body[k]] + body[k + 1..];
    assert raw == raw[..2] + body;
  }

  /** When the call succeeds, `f` was called on every region, in order, and each call succeeded. */
  lemma {:induction false} CallsOnSuccess<E>(raw: string, f: string -> Result<string, E>)
    requires Interpolate(raw, f).Ok?
    ensures Calls(raw, f) == Regions(raw)
    ensures forall i | 0 <= i < |Regions(raw)| :: f(Regions(raw)[i]).Ok?
    decreases |raw|
  {
    if raw == [] {
    } else if raw[0] != '#' {
      CallsOnSuccess(raw[1..], f);
    } else if |raw| == 1 {
    } else if raw[1] == '{' {
      var body := raw[2..];
      var k := CloseAt(body);
      if k < |body| {
        var x, rest := body[..k], body[k + 1..];
        SplitRegion(raw);
        UnfoldRegion(x, rest, f);
        CallsOnSuccess(rest, f);
        forall i | 0 <= i < |Regions(raw)| ensures f(Regions(raw)[i]).Ok? {
          if i > 0 { assert Regions(raw)[i] == Regions(rest)[i - 1]; }
        }
      }
    } else {
      CallsOnSuccess(raw[2..], f);
    }
  }

  /**
    `cs` is the run of calls over regions `rs` that stops at the first
    failure: a non-empty prefix of `rs` whose last call fails with `e` and
    whose other calls succeed.
  */
  ghost predicate StopsAtFailure<E>(cs: seq<string>, rs: seq<string>, f: string -> Result<string, E>, e: E)
  {
    && 0 < |cs| <= |rs|
    && cs == rs[..|cs|]
    && f(cs[|cs| - 1]) == Err(e)
    && forall i | 0 <= i < |cs| - 1 :: f(cs[i]).Ok?
  }

  lemma StopsAtFailureCons<E>(x: string, cs: seq<string>, rs: seq<string>, f: string -> Result<string, E>, e: E)
    requires f(x).Ok? && StopsAtFailure(cs, rs, f, e)
    ensures StopsAtFailure([x] + cs, [x] + rs, f, e)
  {
    assert ([x] + rs)[..|cs| + 1] == [x] + rs[..|cs|];
    forall i | 0 <= i < |cs| ensures f(([x] + cs)[i]).Ok? {
      if i > 0 { assert ([x] + cs)[i] == cs[i - 1]; }
    }
  }

  /**
    When the call fails, `f` was called on the regions in order up to the
    first failing one and on none after it, and that call's error is the
    result.
  */
  lemma {:induction false} CallsOnFailure<E>(raw: string, f: string -> Result<string, E>)
    requires Interpolate(raw, f).Err?
    ensures StopsAtFailure(Calls(raw, f), Regions(raw), f, Interpolate(raw, f).error)
    decreases |raw|
  {
    if raw[0] != '#' {
      CallsOnFailure(raw[1..], f);
    } else if raw[1] == '{' {
      var body := raw[2..];
      var k := CloseAt(body);
      var x, rest := body[..k], body[k + 1..];
      SplitRegion(raw);
      UnfoldRegion(x, rest, f);
      if f(x).Ok? {
        CallsOnFailure(rest, f);
        StopsAtFailureCons(x, Calls(rest, f), Regions(rest), f, Interpolate(rest, f).error);
      }
    } else {
      CallsOnFailure(raw[2..], f);
    }
  }

  /** Only the calls actually made matter: two callbacks that agree on them give the same result and the same calls. */
  lemma {:induction false} OnlyCallsMatter<E>(raw: string, f: string -> Result<string, E>, g: string -> Result<string, E>)
    requires forall i | 0 <= i < |Calls(raw, f)| :: f(Calls(raw, f)[i]) == g(Calls(raw, f)[i])
    ensures Interpolate(raw, f) == Interpolate(raw, g)
    ensures Calls(raw, f) == Calls(raw, g)
    decreases |raw|, 1
  {
    if raw == [] {
    } else if raw[0] != '#' {
      assert Calls(raw, f) == Calls(raw[1..], f);
      OnlyCallsMatter(raw[1..], f, g);
    } else if |raw| == 1 {
    } else if raw[1] == '{' {
      if CloseAt(raw[2..]) < |raw[2..]| {
        OnlyCallsMatterRegion(raw, f, g);
      }
    } else {
      assert Calls(raw, f) == Calls(raw[2..], f);
      OnlyCallsMatter(raw[2..], f, g);
    }
  }

  lemma {:induction false} OnlyCallsMatterRegion<E>(raw: string, f: string -> Result<string, E>, g: string -> Result<string, E>)
    requires |raw| >= 2 && raw[0] == '#' && raw[1] == '{' && CloseAt(raw[2..]) < |raw[2..]|
    requires forall i | 0 <= i < |Calls(raw, f)| :: f(Calls(raw, f)[i]) == g(Calls(raw, f)[i])
    ensures Interpolate(raw, f) == Interpolate(raw, g)
    ensures Calls(raw, f) == Calls(raw, g)
    decreases |raw|, 0
  {
    var body := raw[2..];
    var k := CloseAt(body);
    var x, rest := body[..k], body[k + 1..];
    SplitRegion(raw);
    UnfoldRegion(x, rest, f);
    UnfoldRegion(x, rest, g);
    var later := if f(x).Ok? then Calls(rest, f) else [];
    AgreeOnTail(x, later, f, g);
    if f(x).Ok? {
      OnlyCallsMatter(rest, f, g);
    }
  }

  lemma AgreeOnTail<E>(x: string, cs: seq<string>, f: string -> Result<string, E>, g: string -> Result<string, E>)
    requires forall i | 0 <= i < |[x] + cs| :: f(([x] + cs)[i]) == g(([x] + cs)[i])
    ensures f(x) == g(x)
    ensures forall i | 0 <= i < |cs| :: f(cs[i]) == g(cs[i])
  {
    assert ([x] + cs)[0] == x;
    forall i | 0 <= i < |cs| ensures f(cs[i]) == g(cs[i]) {
      assert cs[i] == ([x] + cs)[i + 1];
    }
  }

  /** The callback of the two unit tests of fmt.rs: `abc` gives `YES`, anything else `NO`. */
  function YesNo(x: string): Result<string, string>
  {
    Ok(if x == "abc" then "YES" else "NO")
  }

  /** Two regions separated by plain text are evaluated left to right and the text between them is kept. */
  lemma TwoRegions<E>(a: string, sep: string, b: string, f: string -> Result<string, E>)
    requires '}' !in a && '}' !in b && '#' !in sep
    requires f(a).Ok? && f(b).Ok?
    ensures Interpolate("#{" + a + "}" + (sep + "#{" + b + "}"), f) == Ok(f(a).value + (sep + f(b).value))
    ensures Calls("#{" + a + "}" + (sep + "#{" + b + "}"), f) == [a, b]
  {
    var tail := sep + "#{" + b + "}";
    assert tail + [] == tail;
    Substitute(sep, b, [], f);
    assert sep + f(b).value + [] == sep + f(b).value;
    UnfoldRegion(a, tail, f);
  }

  /** First unit test of src/docker/fmt.rs: `#{abc}` becomes `YES`. */
  lemma SingleRegionTest(raw: string)
    requires raw == "#{abc}"
    ensures Interpolate(raw, YesNo) == Ok("YES")
  {
    Substitute([], "abc", [], YesNo);
    assert [] + "#{" + "abc" + "}" + [] == raw;
    assert [] + "YES" + [] == "YES";
  }

  /** Second unit test: `#{abc}:#{def}` becomes `YES:NO`. */
  lemma TwoRegionsTest(raw: string)
    requires raw == "#{abc}:#{def}"
    ensures Interpolate(raw, YesNo) == Ok("YES:NO")
  {
    var a, sep, b := "abc", ":", "def";
    assert raw == "#{" + a + "}" + (sep + "#{" + b + "}") by {
      assert "#{" + a + "}" == "#{abc}";
      assert sep + "#{" + b + "}" == ":#{def}";
    }
    assert YesNo(a).value + (sep + YesNo(b).value) == "YES:NO" by {
      assert b != a by { assert b[0] != a[0]; }
    }
    TwoRegions(a, sep, b, YesNo);
  }
}
