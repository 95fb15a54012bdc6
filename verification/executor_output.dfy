/** The worker's output capture: four channels over one shared character budget. */
module OutputCapture {
  import opened Common

  /** A Python string is a sequence of code points, surrogates included. */
  type Point = n: nat | n < 0x110000

  type Text = seq<Point>

  datatype Channel = Stdout | Stderr | Display | Traceback

  function Clean(p: Point): Point { if 0xD800 <= p <= 0xDFFF then 63 else p }

  /** UTF-8 with replacement: each lone surrogate becomes one question mark. */
  function CleanAll(s: Text): Text { seq(|s|, i requires 0 <= i < |s| => Clean(s[i])) }

  /**
   * Cleaning makes any text encodable: no surrogate is left, every other character stays where it is, and each
   * surrogate has become a question mark. It changes exactly the texts that have a surrogate.
   */
  lemma {:induction false} CleanExactly(s: Text)
    ensures |CleanAll(s)| == |s| && forall i :: 0 <= i < |s| ==> !(0xD800 <= CleanAll(s)[i] <= 0xDFFF)
    ensures forall i :: 0 <= i < |s| ==>
      if 0xD800 <= s[i] <= 0xDFFF then CleanAll(s)[i] == '?' as int else CleanAll(s)[i] == s[i]
    ensures CleanAll(s) == s <==> forall i :: 0 <= i < |s| ==> !(0xD800 <= s[i] <= 0xDFFF)
    ensures CleanAll(CleanAll(s)) == CleanAll(s)
  {
    if i :| 0 <= i < |s| && 0xD800 <= s[i] <= 0xDFFF {
      assert CleanAll(s)[i] != s[i];
    } else {
      assert CleanAll(s) == s;
    }
    assert forall i :: 0 <= i < |s| ==> Clean(CleanAll(s)[i]) == CleanAll(s)[i];
  }

  datatype Truncation = Truncation(channel: Channel, original: nat, retained: nat, omitted: nat)

  class OutputBudget {
    const maxChars: nat
    var retained: nat

    constructor (maxChars: nat)
      ensures this.maxChars == maxChars && retained == 0
    {
      this.maxChars, retained := maxChars, 0;
    }

    method Take(count: nat) returns (accepted: nat)
      requires retained <= maxChars
      modifies this
      ensures accepted <= count && retained == old(retained) + accepted <= maxChars
      ensures accepted < count ==> retained == maxChars
    {
      var room := maxChars - retained;
      accepted := if count < room then count else room;
      retained := retained + accepted;
    }
  }

  class BoundedStringIO {
    const budget: OutputBudget
    const channel: Channel
    var total: nat
    var retained: nat
    var text: Text

    constructor (budget: OutputBudget, channel: Channel)
      ensures this.budget == budget && this.channel == channel
      ensures total == 0 && retained == 0 && text == []
    {
      this.budget, this.channel := budget, channel;
      total, retained, text := 0, 0, [];
    }

    /** The reported length is the input's, whatever the budget discarded. */
    method Write(value: Text) returns (reported: nat)
      requires budget.retained <= budget.maxChars
      modifies this, budget
      ensures budget.retained <= budget.maxChars
      ensures var room := budget.retained - old(budget.retained);
        && 0 <= room <= |value| && (room < |value| ==> budget.retained == budget.maxChars)
        && text == old(text) + CleanAll(value[..room])
        && retained == old(retained) + room
      ensures total == old(total) + |value| && reported == |value|
    {
      var room := budget.Take(|value|);
      if room > 0 {
        var prefix := CleanAll(value[..room]);
        text := text + prefix;
        retained := retained + |prefix|;
      }
      total := total + |value|;
      return |value|;
    }

    function Truncated(): (r: Option<Truncation>)
      requires retained <= total
      reads this
      ensures r.None? <==> total == retained
      ensures r.Some? ==> r.value.original == r.value.retained + r.value.omitted && r.value.omitted > 0
    {
      if total > retained then Some(Truncation(channel, total, retained, total - retained)) else None
    }
  }

  // ----- The interleaved stream -----

  datatype Write = Write(channel: Channel, text: Text)

  function Tag(c: Channel, s: Text): seq<(Channel, Point)> { seq(|s|, i requires 0 <= i < |s| => (c, s[i])) }

  /** Everything written, in order, each character tagged with its channel. */
  function Stream(writes: seq<Write>): seq<(Channel, Point)> {
    if writes == [] then []
    else
      var w := writes[|writes| - 1];
      Stream(writes[..|writes| - 1]) + Tag(w.channel, w.text)
  }

  /** One channel's own part of a stream. */
  function On(c: Channel, s: seq<(Channel, Point)>): Text {
    if s == [] then []
    else On(c, s[..|s| - 1]) + if s[|s| - 1].0 == c then [s[|s| - 1].1] else []
  }

  function Cut(max: nat, s: seq<(Channel, Point)>): seq<(Channel, Point)> { if |s| <= max then s else s[..max] }

  lemma {:induction false} OnConcat(c: Channel, s: seq<(Channel, Point)>, t: seq<(Channel, Point)>)
    ensures On(c, s + t) == On(c, s) + On(c, t)
  {
    if t == [] {
      assert s + t == s;
    } else {
      assert (s + t)[..|s + t| - 1] == s + t[..|t| - 1];
      OnConcat(c, s, t[..|t| - 1]);
    }
  }

  lemma {:induction false} OnTag(c: Channel, d: Channel, s: Text)
    ensures On(c, Tag(d, s)) == if c == d then s else []
  {
    if s != [] {
      assert Tag(d, s)[..|s| - 1] == Tag(d, s[..|s| - 1]);
      OnTag(c, d, s[..|s| - 1]);
      assert s == s[..|s| - 1] + [s[|s| - 1]];
    }
  }

  lemma {:induction false} CleanConcat(s: Text, t: Text)
    ensures CleanAll(s + t) == CleanAll(s) + CleanAll(t)
  {
  }

  /** A channel's retained part is a prefix of its own stream. */
  lemma {:induction false} ChannelKeepsPrefix(c: Channel, max: nat, s: seq<(Channel, Point)>)
    ensures On(c, Cut(max, s)) <= On(c, s)
  {
    if |s| > max {
      OnConcat(c, s[..max], s[max..]);
      assert s == s[..max] + s[max..];
    }
  }

  /** The captures of one cell: distinct objects over one budget. */
  class CellCapture {
    const budget: OutputBudget
    const stdout: BoundedStringIO
    const stderr: BoundedStringIO
    const display: BoundedStringIO
    const traceback: BoundedStringIO

    function Of(c: Channel): BoundedStringIO {
      match c case Stdout => stdout case Stderr => stderr case Display => display case Traceback => traceback
    }

    ghost predicate Wired() {
      && (forall c: Channel :: Of(c).budget == budget && Of(c).channel == c)
      && (forall c: Channel, d: Channel :: c != d ==> Of(c) != Of(d))
    }

    /** The budget and every channel hold exactly what the stream so far prescribes. */
    ghost predicate Holds(s: seq<(Channel, Point)>)
      reads budget, stdout, stderr, display, traceback
    {
      && budget.retained == |Cut(budget.maxChars, s)|
      && forall c: Channel ::
           && Of(c).text == CleanAll(On(c, Cut(budget.maxChars, s)))
           && Of(c).total == |On(c, s)|
           && Of(c).retained == |Of(c).text| <= Of(c).total
    }

    constructor (maxChars: nat)
      ensures Wired() && Holds([]) && budget.maxChars == maxChars
      ensures stdout.channel == Stdout && stderr.channel == Stderr
      ensures display.channel == Display && traceback.channel == Traceback
      ensures fresh(budget) && forall c: Channel :: fresh(Of(c))
    {
      var b := new OutputBudget(maxChars);
      budget := b;
      var o := new BoundedStringIO(b, Stdout);
      var e := new BoundedStringIO(b, Stderr);
      var d := new BoundedStringIO(b, Display);
      var t := new BoundedStringIO(b, Traceback);
      stdout, stderr, display, traceback := o, e, d, t;
    }

    method WriteOn(w: Write, ghost s: seq<(Channel, Point)>)
      requires Wired() && Holds(s)
      modifies budget, stdout, stderr, display, traceback
      ensures Holds(s + Tag(w.channel, w.text))
    {
      ghost var kept := budget.retained;
      var target := Of(w.channel);
      label before:
      var reported := target.Write(w.text);
      WriteExtends(budget.maxChars, s, w, budget.retained - kept);
      forall c: Channel
        ensures
          && Of(c).text == CleanAll(On(c, Cut(budget.maxChars, s + Tag(w.channel, w.text))))
          && Of(c).total == |On(c, s + Tag(w.channel, w.text))|
          && Of(c).retained == |Of(c).text| <= Of(c).total
      {
        if c != w.channel {
          assert Of(c) != target;
          assert Of(c).text == old@before(Of(c).text) && Of(c).total == old@before(Of(c).total);
          assert Of(c).retained == old@before(Of(c).retained);
        }
      }
    }

    /**
     * For any interleaving of writes to the four channels, what is retained is exactly the first maxChars
     * characters of the interleaved stream, with lone surrogates replaced one for one.
     */
    method Capture(writes: seq<Write>)
      requires Wired() && Holds([])
      modifies budget, stdout, stderr, display, traceback
      ensures Holds(Stream(writes))
    {
      for n := 0 to |writes|
        invariant Holds(Stream(writes[..n]))
      {
        WriteOn(writes[n], Stream(writes[..n]));
        assert writes[..n + 1][..n] == writes[..n];
      }
      assert writes[..|writes|] == writes;
    }
  }

  /** What one write adds, on its own channel and on the others, when `room` characters still fit. */
  lemma {:induction false} WriteExtends(max: nat, s: seq<(Channel, Point)>, w: Write, room: nat)
    requires room <= |w.text| && |Cut(max, s)| + room <= max
    requires room < |w.text| ==> |Cut(max, s)| + room == max
    ensures var after := s + Tag(w.channel, w.text);
      && |Cut(max, after)| == |Cut(max, s)| + room
      && forall c: Channel ::
           && On(c, after) == On(c, s) + (if c == w.channel then w.text else [])
           && CleanAll(On(c, Cut(max, after))) ==
             CleanAll(On(c, Cut(max, s))) + (if c == w.channel then CleanAll(w.text[..room]) else [])
           && |On(c, Cut(max, after))| <= |On(c, after)|
  {
    var after := s + Tag(w.channel, w.text);
    assert Cut(max, after) == Cut(max, s) + Tag(w.channel, w.text[..room]);
    forall c: Channel
      ensures On(c, after) == On(c, s) + (if c == w.channel then w.text else [])
      ensures CleanAll(On(c, Cut(max, after))) ==
        CleanAll(On(c, Cut(max, s))) + (if c == w.channel then CleanAll(w.text[..room]) else [])
      ensures |On(c, Cut(max, after))| <= |On(c, after)|
    {
      OnConcat(c, s, Tag(w.channel, w.text));
      OnTag(c, w.channel, w.text);
      OnConcat(c, Cut(max, s), Tag(w.channel, w.text[..room]));
      OnTag(c, w.channel, w.text[..room]);
      CleanConcat(On(c, Cut(max, s)), if c == w.channel then w.text[..room] else []);
      ChannelKeepsPrefix(c, max, after);
    }
  }
}
