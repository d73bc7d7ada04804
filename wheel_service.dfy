/** The wheel's selection state machine: parsing of the option text, the
    pointer rule that turns a final rotation into a winning segment, and the
    WheelService object whose fields the spin, reset and option operations
    update (src/app/services/wheel.service.ts). */
module Service {
  import Js
  import Seqs

  datatype Option<T> = None | Some(value: T)

  // ---------------------------------------------------------------------
  // parseInput: split on runs of , ; \n |, trim every piece, drop empties
  // ---------------------------------------------------------------------

  /** The character class of the regular expression /[,;\n|]+/. */
  predicate IsDelimiter(c: char)
  {
    c == ',' || c == ';' || c == '\n' || c == '|'
  }

  predicate HasNoDelimiter(s: string)
  {
    forall c :: c in s ==> !IsDelimiter(c)
  }

  /** A well-formed option: non-empty, no surrounding white space, and no
      delimiter inside. */
  predicate IsCleanItem(s: string)
  {
    s != [] && HasNoDelimiter(s) && Js.IsTrimmed(s)
  }

  predicate IsNonEmpty(s: string)
  {
    |s| > 0
  }

  /** Length of the longest delimiter-free prefix. */
  function WordLength(s: string): (k: nat)
    ensures k <= |s|
    ensures HasNoDelimiter(s[..k])
    ensures k < |s| ==> IsDelimiter(s[k])
  {
    if s == [] || IsDelimiter(s[0]) then 0
    else
      var k := 1 + WordLength(s[1..]);
      assert s[..k] == [s[0]] + s[1..][..k - 1];
      k
  }

  /** Length of the leading run of delimiters. */
  function DelimiterRun(s: string): (k: nat)
    ensures k <= |s|
    ensures forall i :: 0 <= i < k ==> IsDelimiter(s[i])
    ensures k < |s| ==> !IsDelimiter(s[k])
  {
    if s != [] && IsDelimiter(s[0]) then 1 + DelimiterRun(s[1..]) else 0
  }

  /** s without its leading run of delimiters. */
  function SkipDelimiters(s: string): (rest: string)
  {
    s[DelimiterRun(s)..]
  }

  /** String.prototype.split with the separator /[,;\n|]+/: the pieces
      between maximal runs of delimiters, including an empty first or last
      piece when the input starts or ends with a delimiter. */
  function Split(s: string): (pieces: seq<string>)
    ensures |pieces| >= 1
    ensures forall i :: 0 <= i < |pieces| ==> HasNoDelimiter(pieces[i])
    decreases |s|
  {
    var k := WordLength(s);
    if k == |s| then
      assert s[..k] == s;
      [s]
    else
      [s[..k]] + Split(SkipDelimiters(s[k..]))
  }

  /** Text without a delimiter is a single piece. */
  lemma SplitWord(w: string)
    requires HasNoDelimiter(w)
    ensures Split(w) == [w]
  {
    assert w[..|w|] == w;
  }

  /** The first delimiter ends the first piece, and the run of delimiters
      it starts is dropped before the next one. With SplitWord this
      determines Split on every input: the pieces are the maximal
      delimiter-free stretches of the text. */
  lemma SplitAtDelimiter(w: string, d: char, rest: string)
    requires HasNoDelimiter(w) && IsDelimiter(d)
    ensures Split(w + [d] + rest) == [w] + Split(SkipDelimiters(rest))
  {
    var s := w + [d] + rest;
    WordLengthBeforeDelimiter(w, d, rest);
    assert s[..|w|] == w && s[|w|..] == [d] + rest;
    assert ([d] + rest)[1..] == rest;
    assert SkipDelimiters([d] + rest) == SkipDelimiters(rest);
  }

  /** The map(trim) and filter(non-empty) stages of parseInput. */
  function Tidy(pieces: seq<string>): (items: seq<string>)
    ensures forall i :: 0 <= i < |items| ==>
      items[i] != [] && exists j :: 0 <= j < |pieces| && items[i] == Js.Trim(pieces[j])
    ensures forall j :: 0 <= j < |pieces| && Js.Trim(pieces[j]) != [] ==> Js.Trim(pieces[j]) in items
  {
    Seqs.FilterMembers(Seqs.Map(pieces, Js.Trim), IsNonEmpty);
    Seqs.Filter(Seqs.Map(pieces, Js.Trim), IsNonEmpty)
  }

  /** WheelService.parseInput. */
  function ParseInput(input: string): (items: seq<string>)
    ensures forall i :: 0 <= i < |items| ==> IsCleanItem(items[i])
  {
    TidyKeepsClean(Split(input));
    Tidy(Split(input))
  }

  /** Trimmed delimiter-free pieces that survive the filter are clean. */
  lemma TidyKeepsClean(pieces: seq<string>)
    requires forall i :: 0 <= i < |pieces| ==> HasNoDelimiter(pieces[i])
    ensures forall i :: 0 <= i < |Tidy(pieces)| ==> IsCleanItem(Tidy(pieces)[i])
  {
    var trimmed := Seqs.Map(pieces, Js.Trim);
    var items := Tidy(pieces);
    Seqs.FilterMembers(trimmed, IsNonEmpty);
    forall i | 0 <= i < |items| ensures IsCleanItem(items[i]) {
      assert items[i] in trimmed;
      var j :| 0 <= j < |trimmed| && trimmed[j] == items[i];
      assert HasNoDelimiter(pieces[j]);
    }
  }

  lemma {:induction false} TidyConcat(a: seq<string>, b: seq<string>)
    ensures Tidy(a + b) == Tidy(a) + Tidy(b)
  {
    Seqs.MapConcat(a, b, Js.Trim);
    Seqs.FilterConcat(Seqs.Map(a, Js.Trim), Seqs.Map(b, Js.Trim), IsNonEmpty);
  }

  lemma TidyOne(w: string)
    ensures Tidy([w]) == if Js.Trim(w) == [] then [] else [Js.Trim(w)]
  {
    assert Seqs.Map([w], Js.Trim) == [Js.Trim(w)];
  }

  /** A delimiter-free input is a single piece: it parses to its trimmed
      form, or to nothing when that is empty. */
  lemma ParseWord(w: string)
    requires HasNoDelimiter(w)
    ensures ParseInput(w) == if Js.Trim(w) == [] then [] else [Js.Trim(w)]
  {
    SplitWord(w);
    TidyOne(w);
  }

  /** Leading delimiters contribute only empty pieces, which are dropped. */
  lemma SkipDelimitersParse(r: string)
    ensures ParseInput(SkipDelimiters(r)) == ParseInput(r)
  {
    if r != [] && IsDelimiter(r[0]) {
      assert r[0..] == r;
      assert Split(r) == [""] + Split(SkipDelimiters(r));
      TidyConcat([""], Split(SkipDelimiters(r)));
      TidyOne("");
    }
  }

  lemma {:induction false} WordLengthBeforeDelimiter(w: string, d: char, rest: string)
    requires HasNoDelimiter(w) && IsDelimiter(d)
    ensures WordLength(w + [d] + rest) == |w|
  {
    if w != [] {
      assert (w + [d] + rest)[1..] == w[1..] + [d] + rest;
      WordLengthBeforeDelimiter(w[1..], d, rest);
    }
  }

  /** The first delimiter splits the parse into the word before it and the
      parse of what follows. */
  lemma ParseAtFirstDelimiter(w: string, d: char, rest: string)
    requires HasNoDelimiter(w) && IsDelimiter(d)
    ensures ParseInput(w + [d] + rest) == ParseInput(w) + ParseInput(rest)
  {
    SplitAtDelimiter(w, d, rest);
    TidyConcat([w], Split(SkipDelimiters(rest)));
    SkipDelimitersParse(rest);
    ParseWord(w);
    TidyOne(w);
  }

  /** parseInput is a homomorphism over a delimiter: the items of a + d + b
      are the items of a followed by the items of b. Together with ParseWord
      this determines ParseInput completely, and says in particular that
      items keep their input order. */
  lemma {:induction false} ParseConcat(a: string, d: char, b: string)
    requires IsDelimiter(d)
    ensures ParseInput(a + [d] + b) == ParseInput(a) + ParseInput(b)
    decreases |a|
  {
    var k := WordLength(a);
    if k == |a| {
      assert a[..k] == a;
      ParseAtFirstDelimiter(a, d, b);
    } else {
      var w, e, a' := a[..k], a[k], a[k + 1..];
      assert a == w + [e] + a';
      assert a + [d] + b == w + [e] + (a' + [d] + b);
      ParseAtFirstDelimiter(w, e, a' + [d] + b);
      ParseConcat(a', d, b);
      ParseAtFirstDelimiter(w, e, a');
      ConcatAssoc(ParseInput(w), ParseInput(a'), ParseInput(b));
    }
  }

  lemma ConcatAssoc(x: seq<string>, y: seq<string>, z: seq<string>)
    ensures x + (y + z) == (x + y) + z
  {
  }

  /** Characters that never end up inside an option: delimiters and
      white space. */
  predicate IsFiller(s: string)
  {
    forall i :: 0 <= i < |s| ==> IsDelimiter(s[i]) || Js.IsWhitespace(s[i])
  }

  /** A separator as a user types one: a delimiter, then any mix of further
      delimiters and white space (", ", ";; ", "| ", "\n", ...). */
  predicate IsSeparator(sep: string)
  {
    sep != [] && IsDelimiter(sep[0]) && IsFiller(sep[1..])
  }

  /** The options written out with the given separators between them. */
  function Interleave(xs: seq<string>, seps: seq<string>): (text: string)
    requires |xs| > 0 ==> |seps| == |xs| - 1
  {
    if |xs| == 0 then ""
    else if |xs| == 1 then xs[0]
    else xs[0] + seps[0] + Interleave(xs[1..], seps[1..])
  }

  /** One more option in front adds it and its separator to the text. */
  lemma InterleaveCons(x: string, xs: seq<string>, sep: string, seps: seq<string>)
    requires |xs| > 0 && |seps| == |xs| - 1
    ensures Interleave([x] + xs, [sep] + seps) == x + sep + Interleave(xs, seps)
  {
    assert ([x] + xs)[1..] == xs && ([sep] + seps)[1..] == seps;
  }

  /** A white-space character in front of the text only pads the first
      piece, and trimming removes it again. */
  lemma ParseLeadingSpace(w: char, s: string)
    requires Js.IsWhitespace(w) && !IsDelimiter(w)
    ensures ParseInput([w] + s) == ParseInput(s)
  {
    var ws := [w] + s;
    var k := WordLength(s);
    assert ws[1..] == s;
    assert WordLength(ws) == k + 1;
    assert ws[..k + 1] == [w] + s[..k];
    Js.TrimLeadingSpace(w, s[..k]);
    if k == |s| {
      assert s[..k] == s;
      assert Split(ws) == [ws] + [];
      assert Split(s) == [s] + [];
      TidySameHead(ws, s, []);
    } else {
      assert ws[k + 1..] == s[k..];
      var tail := Split(SkipDelimiters(s[k..]));
      assert Split(ws) == [[w] + s[..k]] + tail;
      assert Split(s) == [s[..k]] + tail;
      TidySameHead([w] + s[..k], s[..k], tail);
    }
  }

  /** Pieces with the same trimmed form contribute the same items. */
  lemma TidySameHead(a: string, b: string, tail: seq<string>)
    requires Js.Trim(a) == Js.Trim(b)
    ensures Tidy([a] + tail) == Tidy([b] + tail)
  {
    TidyConcat([a], tail);
    TidyConcat([b], tail);
    TidyOne(a);
    TidyOne(b);
  }

  /** A delimiter in front of the text only separates off an empty piece. */
  lemma ParseLeadingDelimiter(d: char, s: string)
    requires IsDelimiter(d)
    ensures ParseInput([d] + s) == ParseInput(s)
  {
    assert [d] + s == [] + [d] + s;
    ParseConcat([], d, s);
    ParseEmpty();
  }

  /** Delimiters and white space in front of the text add no option. */
  lemma {:induction false} ParseFiller(f: string, rest: string)
    requires IsFiller(f)
    ensures ParseInput(f + rest) == ParseInput(rest)
  {
    if f == [] {
      assert f + rest == rest;
    } else {
      assert f + rest == [f[0]] + (f[1..] + rest);
      ParseFiller(f[1..], rest);
      if IsDelimiter(f[0]) {
        ParseLeadingDelimiter(f[0], f[1..] + rest);
      } else {
        ParseLeadingSpace(f[0], f[1..] + rest);
      }
    }
  }

  /** Round trip: writing well-formed options out with separators between
      them and parsing the text gives the options back, in order. */
  lemma {:induction false} ParseInterleave(xs: seq<string>, seps: seq<string>)
    requires |xs| > 0 ==> |seps| == |xs| - 1
    requires forall i :: 0 <= i < |xs| ==> IsCleanItem(xs[i])
    requires forall i :: 0 <= i < |seps| ==> IsSeparator(seps[i])
    ensures ParseInput(Interleave(xs, seps)) == xs
    decreases |xs|
  {
    if |xs| == 0 {
      ParseEmpty();
    } else if |xs| == 1 {
      ParseWord(xs[0]);
      Js.TrimOfTrimmed(xs[0]);
    } else {
      assert [xs[0]] + xs[1..] == xs;
      var sep, rest := seps[0], Interleave(xs[1..], seps[1..]);
      assert Interleave(xs, seps) == xs[0] + [sep[0]] + (sep[1..] + rest);
      ParseInterleave(xs[1..], seps[1..]);
      ParseFiller(sep[1..], rest);
      ParseConcat(xs[0], sep[0], sep[1..] + rest);
      ParseWord(xs[0]);
      Js.TrimOfTrimmed(xs[0]);
    }
  }

  /** Runs of delimiters collapse and empty pieces vanish. */
  lemma ParseMixedDelimiters()
    ensures ParseInput("A, B;; C| D") == ["A", "B", "C", "D"]
  {
    var xs, seps := ["A", "B", "C", "D"], [", ", ";; ", "| "];
    MixedItemsAreClean(xs);
    MixedSeparators(seps);
    InterleaveCons("C", ["D"], "| ", []);
    InterleaveCons("B", ["C", "D"], ";; ", ["| "]);
    InterleaveCons("A", ["B", "C", "D"], ", ", [";; ", "| "]);
    assert xs == ["A"] + ["B", "C", "D"] && seps == [", "] + [";; ", "| "];
    assert Interleave(xs, seps) == "A, B;; C| D";
    ParseInterleave(xs, seps);
  }

  lemma MixedItemsAreClean(xs: seq<string>)
    requires xs == ["A", "B", "C", "D"]
    ensures forall i :: 0 <= i < |xs| ==> IsCleanItem(xs[i])
  {
  }

  lemma MixedSeparators(seps: seq<string>)
    requires seps == [", ", ";; ", "| "]
    ensures forall i :: 0 <= i < |seps| ==> IsSeparator(seps[i])
  {
    assert IsSeparator(", ") by { assert ", "[1..] == " "; }
    assert IsSeparator(";; ") by { assert ";; "[1..] == "; "; }
    assert IsSeparator("| ") by { assert "| "[1..] == " "; }
  }

  /** The empty text gives the empty wheel. */
  lemma ParseEmpty()
    ensures ParseInput([]) == []
  {
    ParseWord([]);
  }

  // ---------------------------------------------------------------------
  // setOptions: keep the entries whose trimmed form is non-empty
  // ---------------------------------------------------------------------

  /** An entry is blank when it consists of white space only. */
  predicate IsNonBlank(s: string)
    ensures IsNonBlank(s) <==> !Js.AllWhitespace(s)
  {
    Js.Trim(s) != []
  }

  /** The entries setOptions keeps, unmodified and in their order. */
  function KeepNonBlank(entries: seq<string>): (kept: seq<string>)
    ensures forall i :: 0 <= i < |kept| ==> IsNonBlank(kept[i]) && kept[i] in entries
    ensures forall i :: 0 <= i < |entries| && IsNonBlank(entries[i]) ==> entries[i] in kept
    ensures Seqs.IsSubsequence(kept, entries)
  {
    Seqs.FilterIsSubsequence(entries, IsNonBlank);
    Seqs.FilterMembers(entries, IsNonBlank);
    Seqs.Filter(entries, IsNonBlank)
  }

  /** setOptions keeps every occurrence of a non-blank entry, so duplicated
      options (which weight the wheel) stay duplicated. */
  lemma KeepNonBlankCounts(entries: seq<string>)
    ensures forall x :: multiset(KeepNonBlank(entries))[x] == if IsNonBlank(x) then multiset(entries)[x] else 0
  {
    Seqs.FilterMultiset(entries, IsNonBlank);
  }

  /** parseInput never yields a blank item, so setOptions drops nothing of
      its output. */
  lemma ParsedAreKept(input: string)
    ensures KeepNonBlank(ParseInput(input)) == ParseInput(input)
  {
    var items := ParseInput(input);
    forall i | 0 <= i < |items| ensures IsNonBlank(items[i]) {
      Js.TrimOfTrimmed(items[i]);
    }
    Seqs.FilterKeepsAll(items, IsNonBlank);
  }

  // ---------------------------------------------------------------------
  // The pointer rule of the spin's completion
  // ---------------------------------------------------------------------

  /** Degrees of one segment: 360 / options.length. */
  function SegmentAngle(n: nat): (a: real)
    requires n > 0
    ensures a > 0.0
    ensures n as real * a == 360.0
  {
    360.0 / n as real
  }

  /** (360 - totalRotation % 360 + 360) % 360: the angle of the wheel, read
      from its top, that lies under the fixed pointer after the wheel turned
      by totalRotation degrees. It is the rotation undone, modulo a turn. */
  function PointerAngle(total: real): (p: real)
    ensures 0.0 <= p < 360.0
    ensures Js.IsWholeTurns(p + total)
  {
    var normalized := Js.Remainder360(total);
    var p := Js.Remainder360(360.0 - normalized + 360.0);
    WholeTurnsCombine(total - normalized, (360.0 - normalized + 360.0) - p);
    p
  }

  lemma WholeTurnsCombine(x: real, y: real)
    requires Js.IsWholeTurns(x) && Js.IsWholeTurns(y)
    ensures Js.IsWholeTurns(x - y + 720.0)
  {
    var kx, ky := (x / 360.0).Floor, (y / 360.0).Floor;
    var k := kx - ky + 2;
    assert x - y + 720.0 == (k as real) * 360.0;
    assert (x - y + 720.0) / 360.0 == k as real;
  }

  /** The winning index of lines 84-87. The final `% options.length` never
      changes the value: the floor is already below n. */
  function WinnerIndex(n: nat, total: real): (index: nat)
    requires n > 0
    ensures index < n
    ensures index as real <= PointerAngle(total) / SegmentAngle(n) < index as real + 1.0
  {
    var p := PointerAngle(total);
    var raw := (p / SegmentAngle(n)).Floor;
    PointerFraction(p, n);
    Js.IntRemainder(raw, n)
  }

  /** p / (360 / n) is p's fraction of a turn times n, which is below n. */
  lemma PointerFraction(p: real, n: nat)
    requires n > 0 && 0.0 <= p < 360.0
    ensures 0.0 <= p / SegmentAngle(n) < n as real
  {
    var u := p / 360.0;
    assert p / (360.0 / n as real) == u * n as real;
    assert 0.0 <= u < 1.0;
  }

  /** Two readings of the same position that differ by less than a turn
      are equal. */
  lemma WholeTurnsClose(x: real, y: real)
    requires Js.IsWholeTurns(x) && Js.IsWholeTurns(y)
    requires -360.0 < x - y < 360.0
    ensures x == y
  {
    var a, b := (x / 360.0).Floor, (y / 360.0).Floor;
    assert x - y == (a - b) as real * 360.0;
  }

  /** The pointer angle is the only angle of [0, 360) that undoes the
      rotation up to whole turns. */
  lemma PointerAngleUnique(total: real, p: real)
    requires 0.0 <= p < 360.0
    requires Js.IsWholeTurns(p + total)
    ensures p == PointerAngle(total)
  {
    WholeTurnsClose(p + total, PointerAngle(total) + total);
  }

  /** The winning index is the segment the pointer angle falls in, and no
      other segment contains it. */
  lemma WinnerIndexUnique(n: nat, total: real, i: nat)
    requires n > 0
    requires i as real <= PointerAngle(total) / SegmentAngle(n) < i as real + 1.0
    ensures i == WinnerIndex(n, total)
  {
    var j := WinnerIndex(n, total);
    assert j as real < i as real + 1.0 && i as real < j as real + 1.0;
  }

  /** Whole turns added to the rotation do not move the pointer. */
  lemma PointerAnglePeriodic(total: real, turns: int)
    ensures PointerAngle(total + turns as real * 360.0) == PointerAngle(total)
  {
    var p := PointerAngle(total + turns as real * 360.0);
    assert p + (total + turns as real * 360.0) == (p + total) + turns as real * 360.0;
    ShiftWholeTurns(p + total, turns);
    PointerAngleUnique(total, p);
  }

  /** Taking whole turns away from a whole number of turns leaves one. */
  lemma ShiftWholeTurns(x: real, turns: int)
    requires Js.IsWholeTurns(x + turns as real * 360.0)
    ensures Js.IsWholeTurns(x)
  {
    var m := ((x + turns as real * 360.0) / 360.0).Floor - turns;
    assert x == m as real * 360.0;
    assert x / 360.0 == m as real;
  }

  /** The number of extra turns a spin makes: 6 + floor(random * 3). */
  function SpinCount(u: real): (spins: int)
    requires 0.0 <= u < 1.0
    ensures 6 <= spins <= 8
  {
    6 + (u * 3.0).Floor
  }

  /** The random part of a spin in degrees: random * 360. */
  function RandomOffset(u: real): (offset: real)
    requires 0.0 <= u < 1.0
    ensures 0.0 <= offset < 360.0
  {
    u * 360.0
  }

  /** The rotation a spin ends at: the previous rotation, the whole turns,
      and the random offset. */
  function NextRotation(rotation: real, spins: int, offset: real): (total: real)
    ensures 6 <= spins <= 8 && 0.0 <= offset < 360.0 ==> rotation + 2160.0 <= total < rotation + 3240.0
  {
    rotation + (spins as real * 360.0) + offset
  }

  /** Only the random offset and the previous rotation decide the winner;
      how many whole turns the wheel makes does not. */
  lemma SpinsDoNotMatter(n: nat, rotation: real, spins: int, offset: real)
    requires n > 0
    ensures WinnerIndex(n, NextRotation(rotation, spins, offset)) == WinnerIndex(n, rotation + offset)
  {
    assert NextRotation(rotation, spins, offset) == (rotation + offset) + spins as real * 360.0;
    PointerAnglePeriodic(rotation + offset, spins);
  }

  /** Whatever the wheel's current rotation, every segment can win: some
      value of the random offset puts its middle under the pointer. */
  lemma EveryOptionCanWin(n: nat, rotation: real, spins: int, i: nat)
    requires n > 0 && i < n
    ensures exists u :: 0.0 <= u < 1.0 && WinnerIndex(n, NextRotation(rotation, spins, RandomOffset(u))) == i
  {
    var p := MiddleOfSegment(n, i);
    var offset := PointerAngle(rotation + p);
    assert offset + (rotation + p) == p + (rotation + offset);
    PointerAngleUnique(rotation + offset, p);
    WinnerIndexUnique(n, rotation + offset, i);
    SpinsDoNotMatter(n, rotation, spins, offset);
    var u := offset / 360.0;
    assert RandomOffset(u) == offset;
  }

  /** The angle halfway through segment i, measured from the top. */
  function MiddleOfSegment(n: nat, i: nat): (p: real)
    requires n > 0 && i < n
    ensures 0.0 <= p < 360.0
    ensures i as real <= p / SegmentAngle(n) < i as real + 1.0
  {
    var seg := SegmentAngle(n);
    var x := i as real + 0.5;
    MulDivCancel(x, seg);
    MulStrictMono(x, n as real, seg);
    x * seg
  }

  lemma MulDivCancel(x: real, y: real)
    requires y != 0.0
    ensures (x * y) / y == x
  {
  }

  lemma MulStrictMono(x: real, y: real, c: real)
    requires x < y && c > 0.0
    ensures x * c < y * c
  {
  }

  /** The value a spin resolves with: the winning option that the 5-second
      timeout picks. */
  function Winner(captured: seq<string>, total: real): (w: string)
    requires |captured| > 0
    ensures w in captured
  {
    captured[WinnerIndex(|captured|, total)]
  }

  // ---------------------------------------------------------------------
  // The service's state
  // ---------------------------------------------------------------------

  /** What spin() leaves behind when it returns: either the promise is
      already resolved, or the timeout is pending with the option list and
      the rotation it captured. */
  datatype SpinStart = Resolved(value: string) | Pending(captured: seq<string>, total: real)

  /** The option list setOptions starts from, written as the literal the
      service initialises its signal with. */
  const InitialOptions: seq<string> := ["Option 1", "Option 2", "Option 3"]

  /** WheelService: one field per signal. The asynchronous spin() is split
      at its timeouts into StartSpin, FinishSpin and ClearConfetti. */
  class WheelService {
    var options: seq<string>
    var winner: Option<string>
    var isSpinning: bool
    var rotation: real
    var showConfetti: bool
    var shouldRemoveWinner: bool

    /** What every operation keeps: no blank option, a non-negative
        rotation, and neither a winner nor confetti while the wheel turns. */
    ghost predicate Valid()
      reads this
    {
      (forall i :: 0 <= i < |options| ==> IsNonBlank(options[i]))
      && rotation >= 0.0
      && (winner.Some? ==> !isSpinning)
      && (showConfetti ==> !isSpinning)
    }

    constructor ()
      ensures Valid()
      ensures options == InitialOptions && winner == None && !isSpinning
      ensures rotation == 0.0 && !showConfetti && !shouldRemoveWinner
    {
      options := InitialOptions;
      winner := None;
      isSpinning := false;
      rotation := 0.0;
      showConfetti := false;
      shouldRemoveWinner := false;
      new;
      forall i | 0 <= i < |options| ensures IsNonBlank(options[i]) {
        assert !Js.IsWhitespace(options[i][0]);
      }
    }

    /** setOptions: the non-blank entries, as given, and no winner. */
    method SetOptions(entries: seq<string>)
      requires Valid()
      modifies this
      ensures Valid()
      ensures options == KeepNonBlank(entries) && winner == None
      ensures isSpinning == old(isSpinning) && rotation == old(rotation)
      ensures showConfetti == old(showConfetti) && shouldRemoveWinner == old(shouldRemoveWinner)
    {
      options := KeepNonBlank(entries);
      winner := None;
    }

    /** toggleRemoveWinner flips the removal switch and nothing else. */
    method ToggleRemoveWinner()
      requires Valid()
      modifies this
      ensures Valid()
      ensures shouldRemoveWinner == !old(shouldRemoveWinner)
      ensures options == old(options) && winner == old(winner) && isSpinning == old(isSpinning)
      ensures rotation == old(rotation) && showConfetti == old(showConfetti)
    {
      shouldRemoveWinner := !shouldRemoveWinner;
    }

    /** The synchronous part of spin(), with the two Math.random() draws as
        u1 and u2. A spin already under way or an empty wheel resolves the
        promise with "" and changes nothing; otherwise the wheel starts
        turning to its new rotation. */
    method StartSpin(u1: real, u2: real) returns (start: SpinStart)
      requires Valid()
      requires 0.0 <= u1 < 1.0 && 0.0 <= u2 < 1.0
      modifies this
      ensures Valid()
      ensures old(isSpinning) || old(options) == [] ==>
        start == Resolved("") && options == old(options) && winner == old(winner)
        && isSpinning == old(isSpinning) && rotation == old(rotation) && showConfetti == old(showConfetti)
      ensures !old(isSpinning) && old(options) != [] ==>
        start == Pending(old(options), NextRotation(old(rotation), SpinCount(u1), RandomOffset(u2)))
        && isSpinning && winner == None && !showConfetti && rotation == start.total
        && old(rotation) + 2160.0 <= rotation < old(rotation) + 3240.0
        && options == old(options)
      ensures shouldRemoveWinner == old(shouldRemoveWinner)
    {
      if isSpinning || |options| == 0 {
        return Resolved("");
      }
      isSpinning := true;
      winner := None;
      showConfetti := false;
      var captured := options;
      var total := NextRotation(rotation, SpinCount(u1), RandomOffset(u2));
      rotation := total;
      start := Pending(captured, total);
    }

    /** The first timeout of spin(): the winner is read off the captured
        list at the pointer, the wheel stops and the confetti shows. With
        removal on, the index is deleted from the list as it is NOW, which
        is the captured list unless setOptions ran during the spin. */
    method FinishSpin(pending: SpinStart) returns (w: string)
      requires Valid() && isSpinning
      requires pending.Pending? && |pending.captured| > 0
      modifies this
      ensures Valid()
      ensures w == Winner(pending.captured, pending.total)
      ensures winner == Some(w) && !isSpinning && showConfetti
      ensures options == if shouldRemoveWinner
        then Seqs.RemoveAt(old(options), WinnerIndex(|pending.captured|, pending.total))
        else old(options)
      ensures shouldRemoveWinner && old(options) == pending.captured ==>
        multiset(options) + multiset{w} == multiset(old(options))
      ensures rotation == old(rotation) && shouldRemoveWinner == old(shouldRemoveWinner)
    {
      var index := WinnerIndex(|pending.captured|, pending.total);
      w := pending.captured[index];
      winner := Some(w);
      isSpinning := false;
      showConfetti := true;
      if shouldRemoveWinner {
        options := Seqs.RemoveAt(options, index);
        forall i | 0 <= i < |options| ensures IsNonBlank(options[i]) {
          if i >= index {
            assert options[i] == old(options)[i + 1];
          }
        }
      }
    }

    /** The second timeout of spin(): the confetti is hidden again. */
    method ClearConfetti()
      requires Valid()
      modifies this
      ensures Valid()
      ensures !showConfetti
      ensures options == old(options) && winner == old(winner) && isSpinning == old(isSpinning)
      ensures rotation == old(rotation) && shouldRemoveWinner == old(shouldRemoveWinner)
    {
      showConfetti := false;
    }

    /** reset: no winner, rotation back to 0, no confetti. */
    method Reset()
      requires Valid()
      modifies this
      ensures Valid()
      ensures winner == None && rotation == 0.0 && !showConfetti
      ensures options == old(options) && isSpinning == old(isSpinning)
      ensures shouldRemoveWinner == old(shouldRemoveWinner)
    {
      winner := None;
      rotation := 0.0;
      showConfetti := false;
    }
  }

  /** With removal on, a setOptions call during the spin makes the
      completion delete the option at the winner's captured index from the
      new list: here "A" wins, yet "B" is removed and "A" stays. */
  lemma RemovalAfterEditHitsAnotherOption()
    ensures Winner(["A", "B", "C"], 2460.0) == "A"
    ensures Seqs.RemoveAt(["A", "B", "C"], WinnerIndex(3, 2460.0)) == ["B", "C"]
    ensures Seqs.RemoveAt(["B", "C", "A"], WinnerIndex(3, 2460.0)) == ["C", "A"]
  {
    assert Js.IsWholeTurns(60.0 + 2460.0) by {
      assert (2520.0 / 360.0) == 7.0;
    }
    PointerAngleUnique(2460.0, 60.0);
    assert SegmentAngle(3) == 120.0;
    WinnerIndexUnique(3, 2460.0, 0);
  }
}
