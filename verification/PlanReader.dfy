/**
  The streaming plan reader: a buffer filled by reads of any size, an incremental
  decoder, and recursive-descent methods that move through the buffer. Every
  method is proved to do to the text still ahead what the parser does to it at
  once, however the reads cut the bytes.
*/
module PlanReader {
  import opened Wrappers
  import opened Utf8
  import opened JsonSyntax
  import opened PlanParsing
  import opened PlanTheorems

  const READ_SIZE := 65536

  /** What a method of the reader returns, or the error it raises. */
  type Outcome<+T> = Result<T, Error>

  function SpaceEnd(s: Text, i: nat): (n: nat)
    requires i <= |s|
    ensures i <= n <= |s|
    decreases |s| - i
  {
    if i < |s| && s[i] in SPACES then SpaceEnd(s, i + 1) else i
  }

  function PlainEnd(s: Text, i: nat): (n: nat)
    requires i <= |s|
    ensures i <= n <= |s|
    ensures n < |s| ==> !IsPlain(s[n])
    ensures forall k | i <= k < n :: IsPlain(s[k])
    decreases |s| - i
  {
    if i < |s| && IsPlain(s[i]) then PlainEnd(s, i + 1) else i
  }

  lemma {:induction false} SpaceRun(s: Text, i: nat)
    requires i <= |s|
    ensures var n := SpaceEnd(s, i); IsSpace(s[i..n]) && (n < |s| ==> s[n] !in SPACES)
    decreases |s| - i
  {
    if i < |s| && s[i] in SPACES {
      SpaceRun(s, i + 1);
      var n := SpaceEnd(s, i);
      assert s[i..n] == [s[i]] + s[i + 1..n];
    }
  }

  lemma {:induction false} HexCount(t: Text, i: nat)
    requires i <= |t| && forall k | 0 <= k < i :: IsHex(t[k])
    ensures LeadingHex(t) >= i
    ensures i == |t| || !IsHex(t[i]) ==> LeadingHex(t) == i
  {
    if i > 0 {
      HexCount(t[1..], i - 1);
    }
  }

  lemma PlainStep(t: Text, keep: bool, limit: nat, run: nat, tally: Tally, raw: Text)
    requires t != [] && IsPlain(t[0])
    ensures Body(t, keep, limit, run, tally, raw)
            == if !keep then Body(t[1..], keep, limit, run + 1, tally, raw)
               else if run + 1 > MAX_STRING || tally.retained + 1 > limit then Err(RetentionBound)
               else Body(t[1..], keep, limit, run + 1, tally.(retained := tally.retained + 1), raw + t[..1])
  {
  }

  /** A run of plain characters is one step for the reader and many for the parser. */
  lemma {:induction false} BodyRun(t: Text, n: nat, keep: bool, limit: nat, run: nat, tally: Tally, raw: Text)
    requires n <= |t| && forall k | 0 <= k < n :: IsPlain(t[k])
    requires keep ==> run <= MAX_STRING && tally.retained <= limit
    ensures Body(t, keep, limit, run, tally, raw)
            == if !keep then Body(t[n..], keep, limit, run + n, tally, raw)
               else if run + n > MAX_STRING || tally.retained + n > limit then Err(RetentionBound)
               else Body(t[n..], keep, limit, run + n, tally.(retained := tally.retained + n), raw + t[..n])
    decreases n
  {
    hide Body, IsPlain;
    if n == 0 {
      assert t[0..] == t && raw + t[..0] == raw;
    } else {
      PlainStep(t, keep, limit, run, tally, raw);
      assert t[1..][n - 1..] == t[n..];
      if keep && (run + 1 > MAX_STRING || tally.retained + 1 > limit) {
      } else {
        BodyRun(t[1..], n - 1, keep, limit, run + 1,
                if keep then tally.(retained := tally.retained + 1) else tally,
                if keep then raw + t[..1] else raw);
        assert (raw + t[..1]) + t[1..][..n - 1] == raw + t[..n];
      }
    }
  }

  /** What the parser does at a character that is not plain, and at the end. */
  lemma SpecialStep(t: Text, keep: bool, limit: nat, run: nat, tally: Tally, raw: Text)
    requires t != [] && !IsPlain(t[0])
    ensures Body(t, keep, limit, run, tally, raw)
            == if t[0] == QUOTE then Ok(raw, t[1..], tally)
               else if t[0] != BACKSLASH then Err(UnescapedControl)
               else
                 var n := EscapeLength(t[1..]);
                 if n == 0 then Err(InvalidEscape)
                 else if !keep then Body(t[1..][n..], keep, limit, run, tally, raw)
                 else if run > MAX_STRING || tally.retained + 1 + n > limit then Err(RetentionBound)
                 else Body(t[1..][n..], keep, limit, run, tally.(retained := tally.retained + (1 + n)),
                           raw + ([BACKSLASH] + t[1..][..n]))
  {
    hide EscapeLength;
    var n := EscapeLength(t[1..]);
    assert t[1..][n..] == t[1 + n..];
    if t[0] == BACKSLASH {
      assert [BACKSLASH] + t[1..][..n] == t[..1 + n];
    }
  }

  lemma EmptyBody(keep: bool, limit: nat, run: nat, tally: Tally, raw: Text)
    ensures Body([], keep, limit, run, tally, raw) == Err(Unterminated)
  {
  }

  lemma {:induction false} TokenCount(t: Text, n: nat)
    requires n <= |t| && forall k | 0 <= k < n :: t[k] !in DELIMITERS
    ensures TokenLength(t) >= n
    ensures n == |t| || t[n] in DELIMITERS ==> TokenLength(t) == n
  {
    if n > 0 {
      TokenCount(t[1..], n - 1);
    }
  }

  lemma TooManyItems(t: Text, s: Selector, depth: nat, limit: nat, tally: Tally, count: nat, kept: seq<Json>)
    requires count + 1 > MAX_ITEMS
    ensures ItemsAt(t, s, depth, limit, tally, count, kept) == Err(ArrayBound)
  {
  }

  function DepthLeft(depth: nat): nat {
    if depth <= MAX_DEPTH then MAX_DEPTH + 1 - depth else 0
  }

  class Reader {
    const data: seq<Byte>
    const maximum: nat
    const limit: nat

    /** How far the file has been read, and what became of the bytes. */
    var pos: nat
    var bytes: nat
    var digested: seq<Byte>
    var eof: bool
    var pending: seq<Byte>

    var buffer: Text
    var at: nat

    var retained: nat
    var nodes: nat

    ghost predicate Valid()
      reads `pos, `bytes, `digested, `eof, `pending, `buffer, `at
    {
      && bytes == pos <= |data| && bytes <= maximum
      && digested == data[..pos]
      && at <= |buffer|
      && !Decode(data[..pos]).bad && Decode(data[..pos]).left == pending
      && (eof ==> pos == |data| && pending == [])
    }

    /** The text not yet consumed, up to the first undecodable byte. */
    ghost function Rest(): Text
      reads `pos, `bytes, `digested, `eof, `pending, `buffer, `at
      requires Valid()
    {
      buffer[at..] + Decode(pending + data[pos..]).text
    }

    ghost function Counted(): Tally
      reads `retained, `nodes
    {
      Tally(retained, nodes)
    }

    /** The file is within the byte bound and is the encoding of some text. */
    ghost predicate Readable() {
      |data| <= maximum && Clean(data)
    }

    constructor (data: seq<Byte>, maximum: nat, limit: nat)
      ensures Valid() && Rest() == Decode(data).text && Counted() == Tally(0, 0)
      ensures this.data == data && this.maximum == maximum && this.limit == limit
    {
      this.data, this.maximum, this.limit := data, maximum, limit;
      pos, bytes, digested, eof, pending := 0, 0, [], false, [];
      buffer, at, retained, nodes := [], 0, 0, 0;
      new;
      assert data[..0] == [] && [] + data[0..] == data;
      assert buffer[at..] + Decode(data).text == Decode(data).text;
    }

    /** A read returns some of the bytes asked for, and none only at the end. */
    method Read(most: nat) returns (block: seq<Byte>)
      requires Valid() && most > 0
      modifies `pos
      ensures old(pos) <= pos <= |data| && block == data[old(pos)..pos] && |block| <= most
      ensures block == [] <==> old(pos) == |data|
    {
      if pos == |data| {
        return [];
      }
      var n :| 1 <= n <= most && n <= |data| - pos;
      block := data[pos..pos + n];
      pos := pos + n;
    }

    method Fill() returns (r: Outcome<bool>)
      requires Valid()
      modifies `pos, `bytes, `digested, `eof, `pending, `buffer, `at
      ensures r.Done? ==> Valid() && Rest() == old(Rest())
      ensures r.Done? ==> r.value == (at < |buffer|) && (!r.value ==> eof)
      ensures Readable() ==> r.Done?
      decreases |data| - pos
    {
      hide Decode;
      if at < |buffer| {
        return Done(true);
      }
      if eof {
        return Done(false);
      }
      ghost var start := pos;
      var room := maximum + 1 - bytes;
      var block := Read(if room < READ_SIZE then room else READ_SIZE);
      bytes := bytes + |block|;
      if bytes > maximum {
        return Raised(ByteBound);
      }
      digested := digested + block;
      eof := block == [];
      var d := Decode(pending + block);
      BlockDecoded(data, start, pos);
      if d.bad || (eof && d.left != []) {
        return Raised(Encoding);
      }
      buffer, pending, at := d.text, d.left, 0;
      assert data[..start] + block == data[..pos];
      assert buffer[at..] == d.text;
      if buffer != [] {
        return Done(true);
      }
      if eof {
        return Done(false);
      }
      r := Fill();
    }

    /** The next character, if there is one. */
    method Peek() returns (r: Outcome<Option<char>>)
      requires Valid()
      modifies `pos, `bytes, `digested, `eof, `pending, `buffer, `at
      ensures r.Done? ==> Valid() && Rest() == old(Rest())
      ensures r.Done? ==> r.value == (if Rest() == [] then None else Some(Rest()[0]))
      ensures r.Done? ==> (r.value.Some? ==> at < |buffer|) && (r.value.None? ==> eof)
      ensures Readable() ==> r.Done?
    {
      hide Decode;
      var more :- Fill();
      if more {
        assert buffer[at..][0] == buffer[at];
        r := Done(Some(buffer[at]));
      } else {
        AtEnd();
        r := Done(None);
      }
    }

    /** Move on to position `n` of the buffer. */
    method MoveTo(n: nat)
      requires Valid() && at <= n <= |buffer|
      modifies `at
      ensures Valid() && at == n
      ensures n - old(at) <= |old(Rest())|
      ensures Rest() == old(Rest())[n - old(at)..] && buffer[old(at)..n] == old(Rest())[..n - old(at)]
      ensures n < |buffer| ==> Rest() != [] && Rest()[0] == buffer[n]
    {
      hide Decode;
      assert buffer[at..] == buffer[at..n] + buffer[n..];
      assert n < |buffer| ==> buffer[n..][0] == buffer[n];
      at := n;
    }

    /** Step over the next character. */
    method Advance()
      requires Valid() && at < |buffer|
      modifies `at
      ensures Valid() && Rest() == old(Rest())[1..] && old(Rest()) != []
    {
      MoveTo(at + 1);
    }

    method TakeChar(expected: char) returns (r: Outcome<()>)
      requires Valid()
      modifies `pos, `bytes, `digested, `eof, `pending, `buffer, `at
      ensures r.Done? ==> Valid() && StartsWith(old(Rest()), expected) && Rest() == old(Rest())[1..]
      ensures r.Raised? && Readable() ==> r.error == Syntax && !StartsWith(old(Rest()), expected)
    {
      var c :- Peek();
      if c != Some(expected) {
        return Raised(Syntax);
      }
      Advance();
      r := Done(());
    }

    method Whitespace() returns (r: Outcome<()>)
      requires Valid()
      modifies `pos, `bytes, `digested, `eof, `pending, `buffer, `at
      ensures r.Done? ==> Valid() && Rest() == SkipSpace(old(Rest()))
      ensures Readable() ==> r.Done?
    {
      hide Rest;
      var more :- Fill();
      while more
        invariant Valid() && SkipSpace(Rest()) == SkipSpace(old(Rest()))
        invariant more == (at < |buffer|) && (!more ==> eof)
        decreases |Rest()|
      {
        var n := SpaceEnd(buffer, at);
        SpaceRun(buffer, at);
        ghost var space, before := buffer[at..n], Rest();
        MoveTo(n);
        assert before == space + Rest();
        SkipPrinted(space, Rest());
        if at < |buffer| {
          return Done(());
        }
        more :- Fill();
      }
      AtEnd();
      r := Done(());
    }

    /** An escape, from behind its backslash. */
    method Escape() returns (r: Outcome<Text>)
      requires Valid()
      modifies `pos, `bytes, `digested, `eof, `pending, `buffer, `at
      ensures var n := EscapeLength(old(Rest()));
              && (r.Done? ==> Valid() && n > 0 && Rest() == old(Rest())[n..]
                              && r.value == [BACKSLASH] + old(Rest())[..n])
              && (r.Raised? && Readable() ==> n == 0 && r.error == InvalidEscape)
    {
      hide Rest, LeadingHex;
      ghost var t := Rest();
      var escape :- Peek();
      if escape == None || (escape.value !in SHORT_ESCAPES && escape.value != 'u') {
        return Raised(InvalidEscape);
      }
      Advance();
      var sequence := [BACKSLASH, escape.value];
      if escape.value == 'u' {
        var digits :- FourHex();
        sequence := sequence + digits;
        assert t[1..][4..] == t[5..];
        assert sequence == [BACKSLASH] + t[..5];
      }
      r := Done(sequence);
    }

    method FourHex() returns (r: Outcome<Text>)
      requires Valid()
      modifies `pos, `bytes, `digested, `eof, `pending, `buffer, `at
      ensures var t := old(Rest());
              && (r.Done? ==> Valid() && LeadingHex(t) >= 4 && Rest() == t[4..] && r.value == t[..4])
              && (r.Raised? && Readable() ==> LeadingHex(t) < 4 && r.error == InvalidEscape)
    {
      hide Rest, LeadingHex;
      ghost var t := Rest();
      var digits, i := [], 0;
      assert t[0..] == t;
      while i < 4
        invariant 0 <= i <= 4 && i <= |t| && Valid() && Rest() == t[i..]
        invariant forall k | 0 <= k < i :: IsHex(t[k])
        invariant digits == t[..i]
      {
        HexCount(t, i);
        var c :- Peek();
        if c == None || !IsHex(c.value) {
          return Raised(InvalidEscape);
        }
        Advance();
        digits := digits + [c.value];
        i := i + 1;
      }
      HexCount(t, 4);
      r := Done(digits);
    }

    method String(keep: bool) returns (r: Outcome<Units>)
      requires Valid() && retained <= limit
      modifies `pos, `bytes, `digested, `eof, `pending, `buffer, `at, `retained
      ensures r.Done? ==> Valid() && retained <= limit
                          && StringAt(old(Rest()), keep, limit, old(Counted())) == Ok(r.value, Rest(), Counted())
      ensures r.Raised? && Readable() ==> StringAt(old(Rest()), keep, limit, old(Counted())) == Err(r.error)
    {
      hide Rest, Body;
      var _ :- TakeChar(QUOTE);
      r := StringBody(keep);
    }

    /** The plain characters of the buffer from here on. */
    method PlainRun() returns (run: Text)
      requires Valid()
      modifies `at
      ensures Valid() && |run| <= |old(Rest())| && run == old(Rest())[..|run|] && Rest() == old(Rest())[|run|..]
      ensures forall k | 0 <= k < |run| :: IsPlain(old(Rest())[k])
      ensures at < |buffer| ==> Rest() != [] && Rest()[0] == buffer[at] && !IsPlain(buffer[at])
      ensures old(at) < |buffer| ==> |run| > 0 || at < |buffer|
    {
      hide Rest;
      var end := PlainEnd(buffer, at);
      run := buffer[at..end];
      MoveTo(end);
      assert forall k | 0 <= k < |run| :: IsPlain(run[k]);
    }

    /** Count characters that are kept. */
    method Retain(n: nat) returns (r: Outcome<()>)
      requires Valid()
      modifies `retained
      ensures Valid() && Rest() == old(Rest()) && retained == old(retained) + n
      ensures r == if retained <= limit then Done(()) else Raised(RetentionBound)
    {
      retained := retained + n;
      r := if retained > limit then Raised(RetentionBound) else Done(());
    }

    /** The plain characters ahead in the buffer, counted and kept. */
    method TakeRun(keep: bool, chunks: Text, length: nat) returns (r: Outcome<(Text, nat)>)
      requires Valid() && retained <= limit && (keep ==> length <= MAX_STRING)
      modifies `at, `retained
      ensures var spec := Body(old(Rest()), keep, limit, length, old(Counted()), chunks);
              && (r.Done? ==> Valid() && retained <= limit && (keep ==> r.value.1 <= MAX_STRING)
                              && spec == Body(Rest(), keep, limit, r.value.1, Counted(), r.value.0))
              && (r.Raised? ==> spec == Err(r.error))
      ensures r.Done? && at < |buffer| ==> Rest() != [] && Rest()[0] == buffer[at] && !IsPlain(buffer[at])
      ensures r.Done? && old(at) < |buffer| ==> |Rest()| < |old(Rest())| || at < |buffer|
      ensures r.Done? ==> |Rest()| <= |old(Rest())|
    {
      hide Rest, Body, IsPlain;
      ghost var t := Rest();
      var run := PlainRun();
      BodyRun(t, |run|, keep, limit, length, Counted(), chunks);
      if !keep {
        return Done((chunks, length + |run|));
      }
      if length + |run| > MAX_STRING {
        return Raised(RetentionBound);
      }
      var _ :- Retain(|run|);
      r := Done((chunks + run, length + |run|));
    }

    /** The character behind a run: the closing quote, or an escape to keep. */
    method TakeSpecial(keep: bool, chunks: Text, length: nat) returns (r: Outcome<Option<Text>>)
      requires Valid() && retained <= limit && (keep ==> length <= MAX_STRING)
      requires at < |buffer| && Rest() != [] && Rest()[0] == buffer[at] && !IsPlain(buffer[at])
      modifies `pos, `bytes, `digested, `eof, `pending, `buffer, `at, `retained
      ensures var spec := Body(old(Rest()), keep, limit, length, old(Counted()), chunks);
              && (r.Done? ==> Valid() && retained <= limit && |Rest()| < |old(Rest())|
                              && spec == if r.value.None? then Ok(chunks, Rest(), Counted())
                                         else Body(Rest(), keep, limit, length, Counted(), r.value.value))
              && (r.Raised? && Readable() ==> spec == Err(r.error))
    {
      hide Rest, Body, IsPlain, EscapeLength;
      var c := buffer[at];
      SpecialStep(Rest(), keep, limit, length, Counted(), chunks);
      Advance();
      if c == QUOTE {
        return Done(None);
      }
      if c != BACKSLASH {
        return Raised(UnescapedControl);
      }
      var sequence :- Escape();
      if !keep {
        return Done(Some(chunks));
      }
      var _ :- Retain(|sequence|);
      r := Done(Some(chunks + sequence));
    }

    method StringBody(keep: bool) returns (r: Outcome<Units>)
      requires Valid() && retained <= limit
      modifies `pos, `bytes, `digested, `eof, `pending, `buffer, `at, `retained
      ensures var spec := Body(old(Rest()), keep, limit, 0, old(Counted()), []);
              && (r.Done? ==> Valid() && retained <= limit && spec.Ok? && spec.rest == Rest() && spec.tally == Counted()
                              && r.value == (if keep then Unescape(spec.value) else []))
              && (r.Raised? && Readable() ==> spec == Err(r.error))
    {
      ghost var whole := Body(Rest(), keep, limit, 0, Counted(), []);
      hide Rest, Body, IsPlain, Unescape;
      var chunks: Text, length: nat := [], 0;
      var more :- Fill();
      while more
        invariant Valid() && retained <= limit
        invariant more == (at < |buffer|) && (!more ==> eof)
        invariant keep ==> length <= MAX_STRING
        invariant Body(Rest(), keep, limit, length, Counted(), chunks) == whole
        decreases |Rest()|
      {
        var run :- TakeRun(keep, chunks, length);
        chunks, length := run.0, run.1;
        if at < |buffer| {
          var step :- TakeSpecial(keep, chunks, length);
          if step == None {
            return Done(if keep then Unescape(chunks) else []);
          }
          chunks := step.value;
        }
        more :- Fill();
      }
      AtEnd();
      EmptyBody(keep, limit, length, Counted(), chunks);
      r := Raised(Unterminated);
    }

    method Scalar(keep: bool) returns (r: Outcome<Json>)
      requires Valid()
      modifies `pos, `bytes, `digested, `eof, `pending, `buffer, `at
      ensures r.Done? ==> Valid() && ScalarAt(old(Rest()), keep, Counted()) == Ok(r.value, Rest(), Counted())
      ensures r.Raised? && Readable() ==> ScalarAt(old(Rest()), keep, Counted()) == Err(r.error)
    {
      hide Rest, TokenLength, ParseNumber, Infinite;
      ghost var t := Rest();
      var token: Text := [];
      assert t[0..] == t;
      var c :- Peek();
      while c.Some? && c.value !in DELIMITERS
        invariant Valid() && |token| <= |t| && Rest() == t[|token|..] && token == t[..|token|]
        invariant |token| <= MAX_SCALAR && forall k | 0 <= k < |token| :: t[k] !in DELIMITERS
        invariant c == if Rest() == [] then None else Some(Rest()[0])
        invariant c.Some? ==> at < |buffer|
        decreases |t| - |token|
      {
        token := token + [c.value];
        Advance();
        if |token| > MAX_SCALAR {
          TokenCount(t, |token|);
          return Raised(ScalarBound);
        }
        c :- Peek();
      }
      TokenCount(t, |token|);
      if token !in WORDS {
        var number := ParseNumber(token);
        if number == None {
          return Raised(InvalidScalar);
        }
        if Infinite(number.value) {
          return Raised(NonFinite);
        }
      }
      r := Done(if keep then WordMeaning(token) else Null);
    }

    method ReadValue(s: Selector, depth: nat) returns (r: Outcome<Json>)
      requires Valid() && Room(Counted(), limit)
      modifies `pos, `bytes, `digested, `eof, `pending, `buffer, `at, `retained, `nodes
      ensures r.Done? ==> Valid() && Room(Counted(), limit)
                          && Value(old(Rest()), s, depth, limit, old(Counted())) == Ok(r.value, Rest(), Counted())
      ensures r.Raised? && Readable() ==> Value(old(Rest()), s, depth, limit, old(Counted())) == Err(r.error)
      decreases DepthLeft(depth), 4
    {
      hide Rest, CoreAt, SkipSpace;
      var _ :- Visit(s);
      if depth > MAX_DEPTH {
        return Raised(DepthBound);
      }
      var _ :- Whitespace();
      r := ReadCore(s, depth);
    }

    method ReadCore(s: Selector, depth: nat) returns (r: Outcome<Json>)
      requires Valid() && Room(Counted(), limit) && depth <= MAX_DEPTH
      modifies `pos, `bytes, `digested, `eof, `pending, `buffer, `at, `retained, `nodes
      ensures var spec := CoreAt(old(Rest()), s, depth, limit, old(Counted()));
              && (r.Done? ==> Valid() && Room(Counted(), limit) && spec == Ok(r.value, Rest(), Counted()))
              && (r.Raised? && Readable() ==> spec == Err(r.error))
      decreases DepthLeft(depth), 3
    {
      hide Rest, MembersAt, ItemsAt, StringAt, ScalarAt, SkipSpace;
      ghost var t := Rest();
      var c :- Peek();
      assert c.Some? ==> t == [c.value] + t[1..];
      if c == Some('{') {
        Advance();
        r := Object(s, depth);
      } else if c == Some('[') {
        Advance();
        r := Array(s, depth);
      } else if c == Some(QUOTE) {
        var units :- String(s != Skip);
        r := Done(Kept(s, Json.String(units)));
      } else {
        r := Scalar(s != Skip);
      }
    }

    /** Count a node that is kept. */
    method Visit(s: Selector) returns (r: Outcome<()>)
      requires Valid()
      modifies `nodes
      ensures Valid() && Rest() == old(Rest())
      ensures nodes == old(nodes) + (if s == Skip then 0 else 1)
      ensures r == if s != Skip && nodes > MAX_NODES then Raised(NodeBound) else Done(())
    {
      if s != Skip {
        nodes := nodes + 1;
        if nodes > MAX_NODES {
          return Raised(NodeBound);
        }
      }
      r := Done(());
    }

    /** An object, from behind its opening brace. */
    method Object(s: Selector, depth: nat) returns (r: Outcome<Json>)
      requires Valid() && Room(Counted(), limit) && depth <= MAX_DEPTH
      modifies `pos, `bytes, `digested, `eof, `pending, `buffer, `at, `retained, `nodes
      ensures var spec := CoreAt(['{'] + old(Rest()), s, depth, limit, old(Counted()));
              && (r.Done? ==> Valid() && Room(Counted(), limit) && spec == Ok(r.value, Rest(), Counted()))
              && (r.Raised? && Readable() ==> spec == Err(r.error))
      decreases DepthLeft(depth), 2
    {
      hide Rest, MembersAt, SkipSpace, MemberAt, AddField;
      assert (['{'] + Rest())[1..] == Rest();
      var _ :- Whitespace();
      var c :- Peek();
      if c == Some('}') {
        Advance();
        return Done(Kept(s, Json.Object([])));
      }
      var fields: seq<Field>, keys: set<Units> := [], {};
      ghost var whole := MembersAt(Rest(), s, depth, limit, Counted(), keys, fields);
      while true
        invariant Valid() && Room(Counted(), limit)
        invariant MembersAt(Rest(), s, depth, limit, Counted(), keys, fields) == whole
        decreases |Rest()|
      {
        MembersStep(Rest(), s, depth, limit, Counted(), keys, fields);
        var f :- ReadMember(s, depth, keys);
        keys, fields := keys + {f.key}, AddField(s, fields, f);
        var last :- AtSeparator('}');
        if last {
          return Done(Kept(s, Json.Object(fields)));
        }
      }
    }

    /** A comma or the closing character, which ends the list. */
    method AtSeparator(close: char) returns (r: Outcome<bool>)
      requires Valid() && close != ','
      modifies `pos, `bytes, `digested, `eof, `pending, `buffer, `at
      ensures r.Done? ==> Valid() && SeparatorAt(old(Rest()), close) == if r.value then Last(Rest()) else Next(Rest())
      ensures r.Raised? && Readable() ==> r.error == Syntax && SeparatorAt(old(Rest()), close) == Neither
    {
      hide Rest, SkipSpace;
      var _ :- Whitespace();
      var c :- Peek();
      if c == Some(close) {
        Advance();
        return Done(true);
      }
      var _ :- TakeChar(',');
      r := Done(false);
    }

    method ReadMember(s: Selector, depth: nat, keys: set<Units>) returns (r: Outcome<Field>)
      requires Valid() && Room(Counted(), limit) && depth <= MAX_DEPTH
      modifies `pos, `bytes, `digested, `eof, `pending, `buffer, `at, `retained, `nodes
      ensures var spec := MemberAt(old(Rest()), s, depth, limit, old(Counted()), keys);
              && (r.Done? ==> Valid() && Room(Counted(), limit) && spec == Ok(r.value, Rest(), Counted()))
              && (r.Raised? && Readable() ==> spec == Err(r.error))
      decreases DepthLeft(depth), 1
    {
      hide Rest, SkipSpace, StringAt, Value, KeySelector;
      var _ :- Whitespace();
      var key :- String(true);
      if key in keys || |keys| >= MAX_KEYS {
        return Raised(KeyBound);
      }
      var _ :- Whitespace();
      var _ :- TakeChar(':');
      var value :- ReadValue(KeySelector(s, key), depth + 1);
      r := Done(Field(key, value));
    }

    /** An array, from behind its opening bracket. */
    method Array(s: Selector, depth: nat) returns (r: Outcome<Json>)
      requires Valid() && Room(Counted(), limit) && depth <= MAX_DEPTH
      modifies `pos, `bytes, `digested, `eof, `pending, `buffer, `at, `retained, `nodes
      ensures var spec := CoreAt(['['] + old(Rest()), s, depth, limit, old(Counted()));
              && (r.Done? ==> Valid() && Room(Counted(), limit) && spec == Ok(r.value, Rest(), Counted()))
              && (r.Raised? && Readable() ==> spec == Err(r.error))
      decreases DepthLeft(depth), 2
    {
      hide Rest, ItemsAt, SkipSpace, Value, AddItem, SeparatorAt, Kept, Counted, ItemSelector;
      assert (['['] + Rest())[1..] == Rest();
      var _ :- Whitespace();
      var c :- Peek();
      if c == Some(']') {
        Advance();
        return Done(Kept(s, Json.Array([])));
      }
      var items: seq<Json>, count: nat := [], 0;
      ghost var whole := ItemsAt(Rest(), s, depth, limit, Counted(), count, items);
      while true
        invariant Valid() && Room(Counted(), limit)
        invariant ItemsAt(Rest(), s, depth, limit, Counted(), count, items) == whole
        decreases |Rest()|
      {
        if count + 1 > MAX_ITEMS {
          TooManyItems(Rest(), s, depth, limit, Counted(), count, items);
          return Raised(ArrayBound);
        }
        ItemsStep(Rest(), s, depth, limit, Counted(), count, items);
        var item :- ReadItem(s, depth);
        count, items := count + 1, AddItem(s, items, item.0);
        if item.1 {
          return Done(Kept(s, Json.Array(items)));
        }
      }
    }

    /** An item and what follows it; true at the closing bracket. */
    method ReadItem(s: Selector, depth: nat) returns (r: Outcome<(Json, bool)>)
      requires Valid() && Room(Counted(), limit) && depth <= MAX_DEPTH
      modifies `pos, `bytes, `digested, `eof, `pending, `buffer, `at, `retained, `nodes
      ensures var v := Value(old(Rest()), ItemSelector(s), depth + 1, limit, old(Counted()));
              && (r.Done? ==> Valid() && Room(Counted(), limit)
                              && v.Ok? && v.value == r.value.0 && v.tally == Counted()
                              && SeparatorAt(v.rest, ']') == if r.value.1 then Last(Rest()) else Next(Rest()))
              && (r.Raised? && Readable() ==>
                    v == Err(r.error) || (v.Ok? && SeparatorAt(v.rest, ']') == Neither && r.error == Syntax))
      decreases DepthLeft(depth), 1
    {
      hide Rest, SkipSpace, Value, SeparatorAt, Counted, ItemSelector;
      var v :- ReadValue(ItemSelector(s), depth + 1);
      var last :- AtSeparator(']');
      r := Done((v, last));
    }

    /** At the end of the file, the whole of it has been read, digested and decoded. */
    lemma AtEnd()
      requires Valid() && eof
      ensures Readable() && digested == data && (at == |buffer| ==> Rest() == [])
    {
      assert data[..|data|] == data;
      assert pending + data[pos..] == [];
    }
  }

  /** What decoding one more block makes of the bytes read and of the bytes ahead. */
  lemma BlockDecoded(data: seq<Byte>, i: nat, j: nat)
    requires i <= j <= |data| && !Decode(data[..i]).bad
    ensures var pending := Decode(data[..i]).left;
            var d := Decode(pending + data[i..j]);
            && (d.bad ==> !Clean(data))
            && (j == |data| && d.left != [] ==> !Clean(data))
            && (!d.bad ==> !Decode(data[..j]).bad && Decode(data[..j]).left == d.left)
            && (!d.bad ==> Decode(pending + data[i..]).text == d.text + Decode(d.left + data[j..]).text)
  {
    hide Decode;
    var pending := Decode(data[..i]).left;
    assert data[..j] == data[..i] + data[i..j];
    DecodeAppend(data[..i], data[i..j]);
    assert data == data[..j] + data[j..];
    DecodeAppend(data[..j], data[j..]);
    assert pending + data[i..] == (pending + data[i..j]) + data[j..];
    DecodeAppend(pending + data[i..j], data[j..]);
    if j == |data| {
      assert data[..j] == data;
    }
  }
}
