/** The text behind the lengths: what the encoder writes for an observation, and that its length is the one measured. */
module ObservationText {
  import opened Common
  import opened Observation

  function Codes(s: string): Text { seq(|s|, i requires 0 <= i < |s| => s[i] as nat) }

  // ----- Numbers -----

  function Numeral(n: nat): Text { if n < 10 then [48 + n] else Numeral(n / 10) + [48 + n % 10] }

  function ValueOf(digits: Text): int {
    if digits == [] then 0 else 10 * ValueOf(digits[..|digits| - 1]) + digits[|digits| - 1] - 48
  }

  /** A count is written with as many characters as it has digits, and reads back as itself. */
  lemma {:induction false} NumeralReads(n: nat)
    ensures |Numeral(n)| == Digits(n) && ValueOf(Numeral(n)) == n
    ensures forall i :: 0 <= i < |Numeral(n)| ==> 48 <= Numeral(n)[i] <= 57
  {
    if n < 10 {
      assert Numeral(n)[..0] == [];
    } else {
      NumeralReads(n / 10);
      assert Numeral(n)[..|Numeral(n)| - 1] == Numeral(n / 10);
    }
  }

  // ----- Strings -----

  function Hex(d: nat): nat { if d < 10 then 48 + d else 87 + d }

  function Unhex(c: nat): int { if c < 58 then c - 48 else c - 87 }

  /** One code point inside a JSON string: the short escapes, the escape by number, or itself. */
  function Written(p: nat): Text {
    if p == 34 then [92, 34]
    else if p == 92 then [92, 92]
    else if p == 8 then [92, 98]
    else if p == 9 then [92, 116]
    else if p == 10 then [92, 110]
    else if p == 12 then [92, 102]
    else if p == 13 then [92, 114]
    else if p < 32 then [92, 117, 48, 48, Hex(p / 16), Hex(p % 16)]
    else [p]
  }

  function WrittenAll(s: Text): Text { if s == [] then [] else Written(s[0]) + WrittenAll(s[1..]) }

  /** The first code point of a written string and how many characters it took; a lone backslash reads as itself. */
  function ReadOne(t: Text): (r: (int, nat))
    requires t != []
    ensures 1 <= r.1 <= |t|
  {
    if t[0] != 92 || |t| == 1 then (t[0], 1)
    else
      match t[1]
      case 98 => (8, 2)
      case 116 => (9, 2)
      case 110 => (10, 2)
      case 102 => (12, 2)
      case 114 => (13, 2)
      case 117 => if |t| < 6 then (t[0], 1) else (16 * Unhex(t[4]) + Unhex(t[5]), 6)
      case c => (c, 2)
  }

  function ReadAll(t: Text): seq<int>
    decreases |t|
  {
    if t == [] then [] else var (p, n) := ReadOne(t); [p] + ReadAll(t[n..])
  }

  lemma {:induction false} WrittenReads(p: nat, rest: Text)
    ensures |Written(p)| == Escape(p) > 0 && ReadOne(Written(p) + rest) == (p, |Written(p)|)
    ensures forall i :: 0 <= i < |Written(p)| ==> Written(p)[i] >= 32
    ensures Written(p)[0] != 34
  {
  }

  /** A text is written in the length charged for it, without control characters, and reads back as itself. */
  lemma {:induction false} TextReads(s: Text)
    ensures |WrittenAll(s)| == Escaped(s) && ReadAll(WrittenAll(s)) == s
    ensures forall i :: 0 <= i < |WrittenAll(s)| ==> WrittenAll(s)[i] >= 32
  {
    if s != [] {
      TextReads(s[1..]);
      WrittenReads(s[0], WrittenAll(s[1..]));
      EscapedFront(s);
      var t := WrittenAll(s);
      assert t[|Written(s[0])|..] == WrittenAll(s[1..]);
    }
  }

  lemma {:induction false} EscapedFront(s: Text)
    requires s != []
    ensures Escaped(s) == Escape(s[0]) + Escaped(s[1..])
  {
    if |s| > 1 {
      var n := |s| - 1;
      EscapedFront(s[..n]);
      assert s[1..][..n - 1] == s[..n][1..];
    }
  }

  // ----- Fields -----

  /** The field's key inside its own object. */
  function Key(f: Field): string {
    match f
    case FaultMessage => "message"
    case FaultDetails => "details"
    case ExceptionMessage => "message"
    case ExceptionCode => "code"
    case ExceptionDetails => "details"
    case Stdout => "stdout"
    case Stderr => "stderr"
    case Display => "display"
    case Namespace => "namespace"
    case Duration => "duration_seconds"
  }

  /** Its name in the truncation table. */
  function Name(f: Field): string {
    match f
    case FaultMessage => "fault.message"
    case FaultDetails => "fault.details"
    case ExceptionMessage => "exception.message"
    case ExceptionCode => "exception.code"
    case ExceptionDetails => "exception.details"
    case _ => Key(f)
  }

  /**
   * What is written for a shown field: a comma, its key, a colon, and the value; `data` holds structured values as
   * re-encoded.
   */
  function Member(data: map<Field, Text>, f: Field, text: Text): Text {
    [44, 34] + Codes(Key(f)) + [34, 58]
    + if Structured(f) then (if f in data then data[f] else text) else [34] + WrittenAll(text) + [34]
  }

  function Entry(f: Field, n: nat): Text { [34] + Codes(Name(f)) + [34, 58] + Numeral(n) }

  function Members(data: map<Field, Text>, shown: map<Field, Text>, names: seq<Field>): Text {
    if names == [] then []
    else
      var f := names[|names| - 1];
      Members(data, shown, names[..|names| - 1]) + if f in shown then Member(data, f, shown[f]) else []
  }

  /** The table's entries with commas between them. */
  function Entries(omitted: map<Field, nat>, names: seq<Field>): Text {
    if names == [] then []
    else
      var before, f := Entries(omitted, names[..|names| - 1]), names[|names| - 1];
      if f !in omitted then before else before + (if before == [] then [] else [44]) + Entry(f, omitted[f])
  }

  lemma {:induction false} MemberLength(layout: Layout, data: map<Field, Text>, f: Field, text: Text)
    requires layout.reencoded.Keys == data.Keys && forall g :: g in data ==> layout.reencoded[g] == |data[g]|
    ensures |Member(data, f, text)| == KeyCost(f) + ValueCost(layout, f, text)
  {
    TextReads(text);
  }

  lemma {:induction false} EntryLength(f: Field, n: nat)
    ensures |Entry(f, n)| == NameCost(f) + Digits(n) > 0
  {
    NumeralReads(n);
  }

  lemma {:induction false} MembersLength(
      layout: Layout, data: map<Field, Text>, shown: map<Field, Text>, names: seq<Field>)
    requires layout.reencoded.Keys == data.Keys && forall g :: g in data ==> layout.reencoded[g] == |data[g]|
    ensures |Members(data, shown, names)| == Sum(ShownAt(layout, shown), names)
  {
    if names != [] {
      var f := names[|names| - 1];
      MembersLength(layout, data, shown, names[..|names| - 1]);
      if f in shown {
        MemberLength(layout, data, f, shown[f]);
      }
    }
  }

  lemma {:induction false} EntriesLength(omitted: map<Field, nat>, names: seq<Field>)
    ensures Entries(omitted, names) == [] <==> forall i :: 0 <= i < |names| ==> names[i] !in omitted
    ensures |Entries(omitted, names)| ==
      Sum(EntryAt(omitted), names) - if Entries(omitted, names) == [] then 0 else 1
  {
    if names != [] {
      var n := |names| - 1;
      EntriesLength(omitted, names[..n]);
      if names[n] in omitted {
        EntryLength(names[n], omitted[names[n]]);
      }
    }
  }

  /**
   * The measured length is that of the text: the envelope, the total, the table's entries and the members, written
   * one after the other in any order. `envelope` is everything else, and its length is the layout's base.
   */
  lemma {:induction false} LengthIsTextLength(
      layout: Layout, envelope: Text, data: map<Field, Text>, shown: map<Field, Text>, omitted: map<Field, nat>)
    requires layout.base == |envelope|
    requires layout.reencoded.Keys == data.Keys && forall g :: g in data ==> layout.reencoded[g] == |data[g]|
    requires forall g :: g in omitted ==> g in layout.names
    ensures var total := TotalOf(layout, omitted);
      EncodedLength(layout, shown, omitted, total) ==
        |envelope + Numeral(total) + Entries(omitted, layout.names) + Members(data, shown, layout.names)|
  {
    NumeralReads(TotalOf(layout, omitted));
    EntriesLength(omitted, layout.names);
    MembersLength(layout, data, shown, layout.names);
    if omitted != map[] {
      var g :| g in omitted;
      assert g in layout.names;
    }
  }
}
