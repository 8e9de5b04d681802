/** The bounded sanitizer every untrusted value passes through. */
module Sanitizer {
  import opened Common
  import opened Json

  const MAX_FIELD_CHARS := 4000
  const MAX_DEPTH := 64
  const MAX_NODES := 10_000
  const TRUNCATION_MARKER := "\U{2026}[truncated]"
  const DEPTH_MARKER := Str("[depth-exceeded]")
  const SIZE_MARKER := Str("[size-exceeded]")

  // ------------------------------------------------------------------ one string

  /** C0 (without tab, newline, carriage return), DEL and C1. */
  predicate IsControl(c: char) {
    var n := c as int;
    n <= 0x08 || n == 0x0b || n == 0x0c || 0x0e <= n <= 0x1f || 0x7f <= n <= 0x9f
  }

  function CrLfToLf(s: string): string {
    if |s| < 2 then s
    else if s[0] == '\r' && s[1] == '\n' then ['\n'] + CrLfToLf(s[2..])
    else [s[0]] + CrLfToLf(s[1..])
  }

  function CrToLf(s: string): string {
    if s == "" then "" else [if s[0] == '\r' then '\n' else s[0]] + CrToLf(s[1..])
  }

  function Stripped(s: string): string {
    if s == "" then "" else (if IsControl(s[0]) then "" else [s[0]]) + Stripped(s[1..])
  }

  function Cleaned(s: string): string { Stripped(CrToLf(CrLfToLf(s))) }

  function Sanitized(s: string, maxChars: nat): string {
    var cleaned := Cleaned(s);
    if |cleaned| > maxChars then cleaned[..maxChars] + TRUNCATION_MARKER else cleaned
  }

  /** Nothing left for the sanitizer to remove. */
  ghost predicate Clean(s: string) {
    forall c :: c in s ==> !IsControl(c) && c != '\r'
  }

  lemma {:induction false} CrToLfHasNoCr(s: string)
    ensures '\r' !in CrToLf(s)
  {
    if s != "" { CrToLfHasNoCr(s[1..]); }
  }

  lemma {:induction false} StrippedIsClean(s: string)
    requires '\r' !in s
    ensures Clean(Stripped(s))
  {
    if s != "" { StrippedIsClean(s[1..]); }
  }

  lemma {:induction false} CleanIsFixed(s: string)
    requires Clean(s)
    ensures CrLfToLf(s) == s && CrToLf(s) == s && Stripped(s) == s
  {
    if s != "" {
      assert s[0] in s && s == [s[0]] + s[1..];
      CleanIsFixed(s[1..]);
    }
  }

  /** Sanitizing leaves no control character, at most the cap plus the marker, and is idempotent. */
  lemma SanitizedIsCleanAndStable(s: string, maxChars: nat)
    ensures Clean(Sanitized(s, maxChars))
    ensures |Sanitized(s, maxChars)| <= maxChars + |TRUNCATION_MARKER|
    ensures Sanitized(Sanitized(s, maxChars), maxChars) == Sanitized(s, maxChars)
  {
    CrToLfHasNoCr(CrLfToLf(s));
    var cleaned := Cleaned(s);
    StrippedIsClean(CrToLf(CrLfToLf(s)));
    var out := Sanitized(s, maxChars);
    assert Clean(TRUNCATION_MARKER);
    CleanIsFixed(out);
    if |cleaned| > maxChars {
      assert out[..maxChars] == cleaned[..maxChars];
    }
  }

  /** A text that fits keeps every cleaned character; a longer one keeps the first `maxChars` of them and
      ends in the marker. */
  lemma SanitizedKeeps(s: string, maxChars: nat)
    ensures var out, cleaned := Sanitized(s, maxChars), Cleaned(s);
            if |cleaned| <= maxChars then out == cleaned
            else |out| == maxChars + |TRUNCATION_MARKER| && out[..maxChars] <= cleaned
                 && out[maxChars..] == TRUNCATION_MARKER
  {
  }

  /** What is stripped: everything below the space and from DEL to the end of C1, line ends and tab aside. */
  lemma ControlMeans(c: char)
    ensures IsControl(c) <==> (c < ' ' || '\U{7F}' <= c <= '\U{9F}') && c !in {'\t', '\n', '\r'}
  {
  }

  lemma {:induction false} CrLfConcat(s: string, t: string)
    requires !(s != "" && s[|s| - 1] == '\r' && t != "" && t[0] == '\n')
    ensures CrLfToLf(s + t) == CrLfToLf(s) + CrLfToLf(t)
  {
    if s == "" {
      assert s + t == t;
    } else if |s| >= 2 && s[0] == '\r' && s[1] == '\n' {
      assert (s + t)[2..] == s[2..] + t;
      CrLfConcat(s[2..], t);
    } else {
      assert (s + t)[1..] == s[1..] + t;
      CrLfConcat(s[1..], t);
      assert |s| == 1 ==> CrLfToLf(s) == [s[0]];
    }
  }

  lemma {:induction false} CrConcat(s: string, t: string)
    ensures CrToLf(s + t) == CrToLf(s) + CrToLf(t)
  {
    if s == "" {
      assert s + t == t;
    } else {
      assert (s + t)[1..] == s[1..] + t;
      CrConcat(s[1..], t);
    }
  }

  lemma {:induction false} StrippedConcat(s: string, t: string)
    ensures Stripped(s + t) == Stripped(s) + Stripped(t)
  {
    if s == "" {
      assert s + t == t;
    } else {
      assert (s + t)[1..] == s[1..] + t;
      StrippedConcat(s[1..], t);
    }
  }

  /** Cleaning works piece by piece wherever no CR LF pair is cut ... */
  lemma CleanedConcat(s: string, t: string)
    requires !(s != "" && s[|s| - 1] == '\r' && t != "" && t[0] == '\n')
    ensures Cleaned(s + t) == Cleaned(s) + Cleaned(t)
  {
    CrLfConcat(s, t);
    CrConcat(CrLfToLf(s), CrLfToLf(t));
    StrippedConcat(CrToLf(CrLfToLf(s)), CrToLf(CrLfToLf(t)));
  }

  /** ... and on the pieces: any line ending becomes a line feed, a control character vanishes, every
      other character stays. Together the two laws determine the cleaning of every string. */
  lemma CleanedPieces(c: char)
    ensures Cleaned("") == "" && Cleaned("\r\n") == "\n"
    ensures Cleaned([c]) == if c == '\r' then "\n" else if IsControl(c) then "" else [c]
  {
    assert CrLfToLf("\r\n") == "\n" by { assert "\r\n"[2..] == ""; }
    assert CrLfToLf([c]) == [c];
    var d := if c == '\r' then '\n' else c;
    assert CrToLf([c]) == [d] by { assert [c][1..] == ""; }
    assert Stripped([d]) == if IsControl(d) then "" else [d] by { assert [d][1..] == ""; }
  }

  // ------------------------------------------------------------------ the bounded walk

  /** The walked value and the node counter after it. */
  datatype Walked<T> = Walked(out: T, count: nat)

  function Walk(o: Json, depth: nat, count: nat, maxChars: nat): Walked<Json>
    decreases o, 1
  {
    if depth > MAX_DEPTH then Walked(DEPTH_MARKER, count + 1)
    else if count >= MAX_NODES then Walked(SIZE_MARKER, count + 1)
    else
      match o
      case Str(s) => Walked(Str(Sanitized(s, maxChars)), count + 1)
      case Obj(entries) =>
        var w := WalkEntries(entries, depth + 1, count + 1, maxChars);
        Walked(Obj(w.out), w.count)
      case Arr(items) =>
        var w := WalkItems(items, depth + 1, count + 1, maxChars);
        Walked(Arr(w.out), w.count)
      case _ => Walked(o, count + 1)
  }

  function WalkItems(items: seq<Json>, depth: nat, count: nat, maxChars: nat): Walked<seq<Json>>
    decreases items, 0
  {
    if items == [] then Walked([], count)
    else if count >= MAX_NODES then Walked([SIZE_MARKER], count + 1)
    else
      var head := Walk(items[0], depth, count, maxChars);
      var rest := WalkItems(items[1..], depth, head.count, maxChars);
      Walked([head.out] + rest.out, rest.count)
  }

  function WalkEntries(entries: seq<Entry>, depth: nat, count: nat, maxChars: nat): Walked<seq<Entry>>
    decreases entries, 0
  {
    if entries == [] then Walked([], count)
    else if count >= MAX_NODES then Walked([Entry(entries[0].key, SIZE_MARKER)], count + 1)
    else
      var head := Walk(entries[0].value, depth, count, maxChars);
      var rest := WalkEntries(entries[1..], depth, head.count, maxChars);
      Walked([Entry(entries[0].key, head.out)] + rest.out, rest.count)
  }

  /** _walk_with_limits as written: recursion with loops that stop at the node cap. */
  method WalkWithLimits(o: Json, depth: nat, count: nat, maxChars: nat) returns (out: Json, count': nat)
    ensures Walked(out, count') == Walk(o, depth, count, maxChars)
    decreases o
  {
    if depth > MAX_DEPTH { return DEPTH_MARKER, count + 1; }
    if count >= MAX_NODES { return SIZE_MARKER, count + 1; }
    match o {
      case Str(s) => return Str(Sanitized(s, maxChars)), count + 1;
      case Obj(entries) =>
        var outDict: seq<Entry> := [];
        count' := count + 1;
        ghost var whole := WalkEntries(entries, depth + 1, count + 1, maxChars);
        assert entries[0..] == entries;
        assert outDict + whole.out == whole.out;
        for i := 0 to |entries|
          invariant var rest := WalkEntries(entries[i..], depth + 1, count', maxChars);
                    whole == Walked(outDict + rest.out, rest.count)
        {
          assert entries[i..][1..] == entries[i + 1..];
          ghost var rest := WalkEntries(entries[i..], depth + 1, count', maxChars);
          if count' >= MAX_NODES {
            assert outDict + rest.out == outDict + [Entry(entries[i].key, SIZE_MARKER)];
            return Obj(outDict + [Entry(entries[i].key, SIZE_MARKER)]), count' + 1;
          }
          var sanitized, next := WalkWithLimits(entries[i].value, depth + 1, count', maxChars);
          ghost var tail := WalkEntries(entries[i + 1..], depth + 1, next, maxChars);
          var entry := Entry(entries[i].key, sanitized);
          assert outDict + ([entry] + tail.out) == outDict + [entry] + tail.out;
          outDict := outDict + [entry];
          count' := next;
        }
        assert outDict + [] == outDict;
        return Obj(outDict), count';
      case Arr(items) =>
        var outList: seq<Json> := [];
        count' := count + 1;
        ghost var whole := WalkItems(items, depth + 1, count + 1, maxChars);
        assert items[0..] == items;
        assert outList + whole.out == whole.out;
        for i := 0 to |items|
          invariant var rest := WalkItems(items[i..], depth + 1, count', maxChars);
                    whole == Walked(outList + rest.out, rest.count)
        {
          assert items[i..][1..] == items[i + 1..];
          ghost var rest := WalkItems(items[i..], depth + 1, count', maxChars);
          if count' >= MAX_NODES {
            assert outList + rest.out == outList + [SIZE_MARKER];
            return Arr(outList + [SIZE_MARKER]), count' + 1;
          }
          var sanitized, next := WalkWithLimits(items[i], depth + 1, count', maxChars);
          ghost var tail := WalkItems(items[i + 1..], depth + 1, next, maxChars);
          assert outList + ([sanitized] + tail.out) == outList + [sanitized] + tail.out;
          outList := outList + [sanitized];
          count' := next;
        }
        assert outList + [] == outList;
        return Arr(outList), count';
      case Null => return o, count + 1;
      case Bool(_) => return o, count + 1;
      case Num(_) => return o, count + 1;
    }
  }

  // ------------------------------------------------------------------ measures of a value

  function Size(o: Json): nat
    decreases o, 1
  {
    match o
    case Arr(items) => 1 + SizeItems(items)
    case Obj(entries) => 1 + SizeEntries(entries)
    case _ => 1
  }

  function SizeItems(items: seq<Json>): nat
    decreases items, 0
  {
    if items == [] then 0 else Size(items[0]) + SizeItems(items[1..])
  }

  function SizeEntries(entries: seq<Entry>): nat
    decreases entries, 0
  {
    if entries == [] then 0 else Size(entries[0].value) + SizeEntries(entries[1..])
  }

  /** The deepest nesting index below the value (0 for a leaf or an empty container). */
  function Height(o: Json): nat
    decreases o, 1
  {
    match o
    case Arr(items) => HeightItems(items)
    case Obj(entries) => HeightEntries(entries)
    case _ => 0
  }

  function HeightItems(items: seq<Json>): nat
    decreases items, 0
  {
    if items == [] then 0 else Max(1 + Height(items[0]), HeightItems(items[1..]))
  }

  function HeightEntries(entries: seq<Entry>): nat
    decreases entries, 0
  {
    if entries == [] then 0 else Max(1 + Height(entries[0].value), HeightEntries(entries[1..]))
  }

  /** Every string value is clean; keys are not touched by the walk. */
  ghost predicate AllClean(o: Json) {
    match o
    case Str(s) => Clean(s)
    case Arr(items) => forall v :: v in items ==> AllClean(v)
    case Obj(entries) => forall e :: e in entries ==> AllClean(e.value)
    case _ => true
  }

  /** The sanitizer without caps. */
  function Plain(o: Json, maxChars: nat): Json
    decreases o, 1
  {
    match o
    case Str(s) => Str(Sanitized(s, maxChars))
    case Arr(items) => Arr(PlainItems(items, maxChars))
    case Obj(entries) => Obj(PlainEntries(entries, maxChars))
    case _ => o
  }

  function PlainItems(items: seq<Json>, maxChars: nat): seq<Json>
    decreases items, 0
  {
    if items == [] then [] else [Plain(items[0], maxChars)] + PlainItems(items[1..], maxChars)
  }

  function PlainEntries(entries: seq<Entry>, maxChars: nat): seq<Entry>
    decreases entries, 0
  {
    if entries == [] then []
    else [Entry(entries[0].key, Plain(entries[0].value, maxChars))] + PlainEntries(entries[1..], maxChars)
  }

  // ------------------------------------------------------------------ idempotence

  /** Re-walking the output from the same counter changes nothing and ends on the same counter. */
  lemma {:induction false} WalkIdempotent(o: Json, depth: nat, count: nat, maxChars: nat)
    ensures var w := Walk(o, depth, count, maxChars); Walk(w.out, depth, count, maxChars) == w
    decreases o, 1
  {
    if depth <= MAX_DEPTH && count < MAX_NODES {
      match o
      case Str(s) => SanitizedIsCleanAndStable(s, maxChars);
      case Arr(items) => WalkItemsIdempotent(items, depth + 1, count + 1, maxChars);
      case Obj(entries) => WalkEntriesIdempotent(entries, depth + 1, count + 1, maxChars);
      case _ =>
    }
  }

  lemma {:induction false} WalkItemsIdempotent(items: seq<Json>, depth: nat, count: nat, maxChars: nat)
    ensures var w := WalkItems(items, depth, count, maxChars); WalkItems(w.out, depth, count, maxChars) == w
    decreases items, 0
  {
    if items != [] && count < MAX_NODES {
      var head := Walk(items[0], depth, count, maxChars);
      WalkIdempotent(items[0], depth, count, maxChars);
      WalkItemsIdempotent(items[1..], depth, head.count, maxChars);
      var rest := WalkItems(items[1..], depth, head.count, maxChars);
      assert ([head.out] + rest.out)[1..] == rest.out;
    }
  }

  lemma {:induction false} WalkEntriesIdempotent(entries: seq<Entry>, depth: nat, count: nat, maxChars: nat)
    ensures var w := WalkEntries(entries, depth, count, maxChars); WalkEntries(w.out, depth, count, maxChars) == w
    decreases entries, 0
  {
    if entries != [] && count < MAX_NODES {
      var head := Walk(entries[0].value, depth, count, maxChars);
      WalkIdempotent(entries[0].value, depth, count, maxChars);
      WalkEntriesIdempotent(entries[1..], depth, head.count, maxChars);
      var rest := WalkEntries(entries[1..], depth, head.count, maxChars);
      assert ([Entry(entries[0].key, head.out)] + rest.out)[1..] == rest.out;
    }
  }

  // ------------------------------------------------------------------ size, depth, cleanliness

  /** From inside the caps, a walk's output is counted exactly, ends at most one node a level over
      the cap, nests no deeper than one below the depth cap, and holds clean strings only. */
  ghost predicate Tame(w: Walked<Json>, depth: nat, count: nat) {
    && w.count == count + Size(w.out)
    && w.count <= MAX_NODES + MAX_DEPTH + 1 - depth
    && depth + Height(w.out) <= MAX_DEPTH + 1
    && AllClean(w.out)
  }

  lemma {:induction false} WalkIsTame(o: Json, depth: nat, count: nat, maxChars: nat)
    requires depth <= MAX_DEPTH + 1 && count < MAX_NODES
    ensures Tame(Walk(o, depth, count, maxChars), depth, count)
    decreases o, 1
  {
    if depth <= MAX_DEPTH {
      match o
      case Str(s) => SanitizedIsCleanAndStable(s, maxChars);
      case Arr(items) => WalkItemsIsTame(items, depth + 1, count + 1, maxChars);
      case Obj(entries) => WalkEntriesIsTame(entries, depth + 1, count + 1, maxChars);
      case _ =>
    } else {
      MarkersAreClean();
    }
  }

  lemma MarkersAreClean()
    ensures Clean(DEPTH_MARKER.s) && Clean(SIZE_MARKER.s)
  {
    var depth, size := DEPTH_MARKER.s, SIZE_MARKER.s;
    assert forall k :: 0 <= k < |depth| ==> !IsControl(depth[k]) && depth[k] != '\r';
    assert forall k :: 0 <= k < |size| ==> !IsControl(size[k]) && size[k] != '\r';
  }

  lemma {:induction false} WalkItemsIsTame(items: seq<Json>, depth: nat, count: nat, maxChars: nat)
    requires 0 < depth <= MAX_DEPTH + 1 && count <= MAX_NODES + MAX_DEPTH + 1 - depth
    ensures var w := WalkItems(items, depth, count, maxChars);
            && w.count == count + SizeItems(w.out)
            && w.count <= MAX_NODES + MAX_DEPTH + 2 - depth
            && depth - 1 + HeightItems(w.out) <= MAX_DEPTH + 1
            && forall v :: v in w.out ==> AllClean(v)
    decreases items, 0
  {
    if items != [] {
      if count >= MAX_NODES {
        MarkersAreClean();
        assert [SIZE_MARKER][1..] == [];
      } else {
        var head := Walk(items[0], depth, count, maxChars);
        WalkIsTame(items[0], depth, count, maxChars);
        WalkItemsIsTame(items[1..], depth, head.count, maxChars);
        var rest := WalkItems(items[1..], depth, head.count, maxChars);
        assert ([head.out] + rest.out)[1..] == rest.out;
      }
    }
  }

  lemma {:induction false} WalkEntriesIsTame(entries: seq<Entry>, depth: nat, count: nat, maxChars: nat)
    requires 0 < depth <= MAX_DEPTH + 1 && count <= MAX_NODES + MAX_DEPTH + 1 - depth
    ensures var w := WalkEntries(entries, depth, count, maxChars);
            && w.count == count + SizeEntries(w.out)
            && w.count <= MAX_NODES + MAX_DEPTH + 2 - depth
            && depth - 1 + HeightEntries(w.out) <= MAX_DEPTH + 1
            && forall e :: e in w.out ==> AllClean(e.value)
    decreases entries, 0
  {
    if entries != [] {
      if count >= MAX_NODES {
        MarkersAreClean();
        assert [Entry(entries[0].key, SIZE_MARKER)][1..] == [];
      } else {
        var head := Walk(entries[0].value, depth, count, maxChars);
        WalkIsTame(entries[0].value, depth, count, maxChars);
        WalkEntriesIsTame(entries[1..], depth, head.count, maxChars);
        var rest := WalkEntries(entries[1..], depth, head.count, maxChars);
        assert ([Entry(entries[0].key, head.out)] + rest.out)[1..] == rest.out;
      }
    }
  }

  // ------------------------------------------------------------------ refinement

  /** Within both caps the walk is the plain map. */
  lemma {:induction false} WalkIsPlainWithinCaps(o: Json, depth: nat, count: nat, maxChars: nat)
    requires depth + Height(o) <= MAX_DEPTH && count + Size(o) <= MAX_NODES
    ensures Walk(o, depth, count, maxChars) == Walked(Plain(o, maxChars), count + Size(o))
    decreases o, 1
  {
    match o
    case Arr(items) => WalkItemsIsPlain(items, depth + 1, count + 1, maxChars);
    case Obj(entries) => WalkEntriesIsPlain(entries, depth + 1, count + 1, maxChars);
    case _ =>
  }

  lemma {:induction false} WalkItemsIsPlain(items: seq<Json>, depth: nat, count: nat, maxChars: nat)
    requires 0 < depth && depth - 1 + HeightItems(items) <= MAX_DEPTH && count + SizeItems(items) <= MAX_NODES
    ensures WalkItems(items, depth, count, maxChars) == Walked(PlainItems(items, maxChars), count + SizeItems(items))
    decreases items, 0
  {
    if items != [] {
      SizePositive(items[0]);
      WalkIsPlainWithinCaps(items[0], depth, count, maxChars);
      WalkItemsIsPlain(items[1..], depth, count + Size(items[0]), maxChars);
    }
  }

  lemma {:induction false} WalkEntriesIsPlain(entries: seq<Entry>, depth: nat, count: nat, maxChars: nat)
    requires 0 < depth && depth - 1 + HeightEntries(entries) <= MAX_DEPTH && count + SizeEntries(entries) <= MAX_NODES
    ensures WalkEntries(entries, depth, count, maxChars)
            == Walked(PlainEntries(entries, maxChars), count + SizeEntries(entries))
    decreases entries, 0
  {
    if entries != [] {
      SizePositive(entries[0].value);
      WalkIsPlainWithinCaps(entries[0].value, depth, count, maxChars);
      WalkEntriesIsPlain(entries[1..], depth, count + Size(entries[0].value), maxChars);
    }
  }

  /** Every string of the value is clean and no longer than the limit. */
  predicate Fits(o: Json, maxChars: nat) {
    match o
    case Str(s) => |s| <= maxChars && forall k :: 0 <= k < |s| ==> !IsControl(s[k]) && s[k] != '\r'
    case Arr(items) => forall v :: v in items ==> Fits(v, maxChars)
    case Obj(entries) => forall e :: e in entries ==> Fits(e.value, maxChars)
    case _ => true
  }

  /** The plain map leaves a value alone whose strings are clean and short enough. */
  lemma {:induction false} PlainOfFitting(o: Json, maxChars: nat)
    requires Fits(o, maxChars)
    ensures Plain(o, maxChars) == o
    decreases o, 1
  {
    match o
    case Str(s) => CleanIsFixed(s);
    case Arr(items) => PlainItemsOfFitting(items, maxChars);
    case Obj(entries) => PlainEntriesOfFitting(entries, maxChars);
    case _ =>
  }

  lemma {:induction false} PlainItemsOfFitting(items: seq<Json>, maxChars: nat)
    requires forall v :: v in items ==> Fits(v, maxChars)
    ensures PlainItems(items, maxChars) == items
    decreases items, 0
  {
    if items != [] {
      assert items[0] in items && items == [items[0]] + items[1..];
      PlainOfFitting(items[0], maxChars);
      PlainItemsOfFitting(items[1..], maxChars);
    }
  }

  lemma {:induction false} PlainEntriesOfFitting(entries: seq<Entry>, maxChars: nat)
    requires forall e :: e in entries ==> Fits(e.value, maxChars)
    ensures PlainEntries(entries, maxChars) == entries
    decreases entries, 0
  {
    if entries != [] {
      assert entries[0] in entries && entries == [entries[0]] + entries[1..];
      PlainOfFitting(entries[0].value, maxChars);
      PlainEntriesOfFitting(entries[1..], maxChars);
    }
  }

  lemma SizePositive(o: Json)
    ensures Size(o) >= 1
  {
  }

  // ------------------------------------------------------------------ cuts are marked

  /** out is the value with every string sanitized, except that what lies below the depth cap is replaced by
      the depth marker, and that a list or dictionary may end, early or not, in a size marker. */
  predicate Trimmed(out: Json, o: Json, depth: nat, maxChars: nat)
    decreases out
  {
    if depth > MAX_DEPTH then out == DEPTH_MARKER
    else
      match o
      case Str(s) => out == Str(Sanitized(s, maxChars))
      case Arr(items) => out.Arr? && TrimmedItems(out.items, items, depth + 1, maxChars)
      case Obj(entries) => out.Obj? && TrimmedEntries(out.entries, entries, depth + 1, maxChars)
      case _ => out == o
  }

  predicate TrimmedItems(out: seq<Json>, items: seq<Json>, depth: nat, maxChars: nat)
    decreases out
  {
    && |out| <= |items|
    && (|out| < |items| ==> out != [] && out[|out| - 1] == SIZE_MARKER)
    && forall k :: 0 <= k < |out| ==>
         Trimmed(out[k], items[k], depth, maxChars) || (k == |out| - 1 && out[k] == SIZE_MARKER)
  }

  predicate TrimmedEntries(out: seq<Entry>, entries: seq<Entry>, depth: nat, maxChars: nat)
    decreases out
  {
    && |out| <= |entries|
    && (|out| < |entries| ==> out != [] && out[|out| - 1].value == SIZE_MARKER)
    && forall k :: 0 <= k < |out| ==>
         && out[k].key == entries[k].key
         && (Trimmed(out[k].value, entries[k].value, depth, maxChars)
             || (k == |out| - 1 && out[k].value == SIZE_MARKER))
  }

  /** Whatever the caps cut off, the output says so in place: nothing is dropped, reordered or renamed
      without a marker. */
  lemma {:induction false} WalkIsTrimmed(o: Json, depth: nat, count: nat, maxChars: nat)
    requires count < MAX_NODES
    ensures Trimmed(Walk(o, depth, count, maxChars).out, o, depth, maxChars)
    decreases o, 1
  {
    if depth <= MAX_DEPTH {
      match o
      case Arr(items) => WalkItemsIsTrimmed(items, depth + 1, count + 1, maxChars);
      case Obj(entries) => WalkEntriesIsTrimmed(entries, depth + 1, count + 1, maxChars);
      case _ =>
    }
  }

  lemma {:induction false} WalkItemsIsTrimmed(items: seq<Json>, depth: nat, count: nat, maxChars: nat)
    ensures TrimmedItems(WalkItems(items, depth, count, maxChars).out, items, depth, maxChars)
    decreases items, 0
  {
    if items != [] && count < MAX_NODES {
      var head := Walk(items[0], depth, count, maxChars);
      var rest := WalkItems(items[1..], depth, head.count, maxChars);
      WalkIsTrimmed(items[0], depth, count, maxChars);
      WalkItemsIsTrimmed(items[1..], depth, head.count, maxChars);
      var out := [head.out] + rest.out;
      assert forall k :: 0 < k < |out| ==> out[k] == rest.out[k - 1] && items[k] == items[1..][k - 1];
    }
  }

  lemma {:induction false} WalkEntriesIsTrimmed(entries: seq<Entry>, depth: nat, count: nat, maxChars: nat)
    ensures TrimmedEntries(WalkEntries(entries, depth, count, maxChars).out, entries, depth, maxChars)
    decreases entries, 0
  {
    if entries != [] && count < MAX_NODES {
      var head := Walk(entries[0].value, depth, count, maxChars);
      var rest := WalkEntries(entries[1..], depth, head.count, maxChars);
      WalkIsTrimmed(entries[0].value, depth, count, maxChars);
      WalkEntriesIsTrimmed(entries[1..], depth, head.count, maxChars);
      var out := [Entry(entries[0].key, head.out)] + rest.out;
      assert forall k :: 0 < k < |out| ==> out[k] == rest.out[k - 1] && entries[k] == entries[1..][k - 1];
    }
  }

  function Min(a: int, b: int): int { if a < b then a else b }

  /** And nothing is cut before the node budget is spent: within the depth cap a walk visits all nodes, or
      as many as the cap allows. */
  lemma {:induction false} WalkSpendsBudget(o: Json, depth: nat, count: nat, maxChars: nat)
    requires depth + Height(o) <= MAX_DEPTH
    ensures Walk(o, depth, count, maxChars).count >= Min(count + Size(o), MAX_NODES)
    decreases o, 1
  {
    match o
    case Arr(items) => WalkItemsSpendsBudget(items, depth + 1, count + 1, maxChars);
    case Obj(entries) => WalkEntriesSpendsBudget(entries, depth + 1, count + 1, maxChars);
    case _ =>
  }

  lemma {:induction false} WalkItemsSpendsBudget(items: seq<Json>, depth: nat, count: nat, maxChars: nat)
    requires 0 < depth && depth - 1 + HeightItems(items) <= MAX_DEPTH
    ensures WalkItems(items, depth, count, maxChars).count >= Min(count + SizeItems(items), MAX_NODES)
    decreases items, 0
  {
    if items != [] {
      WalkSpendsBudget(items[0], depth, count, maxChars);
      WalkItemsSpendsBudget(items[1..], depth, Walk(items[0], depth, count, maxChars).count, maxChars);
    }
  }

  lemma {:induction false} WalkEntriesSpendsBudget(entries: seq<Entry>, depth: nat, count: nat, maxChars: nat)
    requires 0 < depth && depth - 1 + HeightEntries(entries) <= MAX_DEPTH
    ensures WalkEntries(entries, depth, count, maxChars).count >= Min(count + SizeEntries(entries), MAX_NODES)
    decreases entries, 0
  {
    if entries != [] {
      var head := Walk(entries[0].value, depth, count, maxChars);
      WalkSpendsBudget(entries[0].value, depth, count, maxChars);
      WalkEntriesSpendsBudget(entries[1..], depth, head.count, maxChars);
    }
  }

  /** walk_and_sanitize: what callers rely on, for every JSON value. */
  function WalkAndSanitize(o: Json, maxChars: nat := MAX_FIELD_CHARS): Json { Walk(o, 0, 0, maxChars).out }

  lemma WalkAndSanitizeContract(o: Json, maxChars: nat)
    ensures var out := WalkAndSanitize(o, maxChars);
            && WalkAndSanitize(out, maxChars) == out
            && Size(out) <= MAX_NODES + MAX_DEPTH + 1
            && Height(out) <= MAX_DEPTH + 1
            && AllClean(out)
            && Trimmed(out, o, 0, maxChars)
            && (Height(o) <= MAX_DEPTH ==> Size(out) >= Min(Size(o), MAX_NODES))
            && (Height(o) <= MAX_DEPTH && Size(o) <= MAX_NODES ==> out == Plain(o, maxChars))
            && (Height(o) <= MAX_DEPTH && Size(o) <= MAX_NODES && Fits(o, maxChars) ==> out == o)
  {
    WalkIsTrimmed(o, 0, 0, maxChars);
    if Height(o) <= MAX_DEPTH { WalkSpendsBudget(o, 0, 0, maxChars); }
    if Fits(o, maxChars) { PlainOfFitting(o, maxChars); }
    WalkIdempotent(o, 0, 0, maxChars);
    WalkIsTame(o, 0, 0, maxChars);
    if Height(o) <= MAX_DEPTH && Size(o) <= MAX_NODES { WalkIsPlainWithinCaps(o, 0, 0, maxChars); }
  }
}
