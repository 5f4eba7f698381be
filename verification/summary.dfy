/**
 * The two Markdown summaries of a consultation (app_production.py:580-607
 * on the diagnosis turn, 664-683 when they are rebuilt on later turns): six
 * entries, each a heading and a body, in a fixed order.
 */
module Summary {
  import Report

  /** `**Heading:** body` (Bold) or `### Heading:` above the body (Headed), then a blank line. */
  datatype Style = Bold | Headed

  function Entry(style: Style, heading: string, body: string): string {
    match style
    case Bold => "**" + heading + ":** " + body + "\n\n"
    case Headed => "### " + heading + ":\n" + body + "\n\n"
  }

  /** The strings one after the other. */
  function Concat(xs: seq<string>): string {
    if xs == [] then "" else xs[0] + Concat(xs[1..])
  }

  lemma {:induction false} ConcatAppend(xs: seq<string>, ys: seq<string>)
    ensures Concat(xs + ys) == Concat(xs) + Concat(ys)
  {
    if xs == [] {
      assert xs + ys == ys;
    } else {
      var zs := xs + ys;
      assert zs[0] == xs[0] && zs[1..] == xs[1..] + ys;
      ConcatAppend(xs[1..], ys);
      calc {
        Concat(zs);
        zs[0] + Concat(zs[1..]);
        xs[0] + (Concat(xs[1..]) + Concat(ys));
        (xs[0] + Concat(xs[1..])) + Concat(ys);
      }
    }
  }

  /** The entries, in the order of `headings`. */
  function Entries(style: Style, headings: seq<string>, bodies: seq<string>): (r: seq<string>)
    requires |headings| == |bodies|
    ensures |r| == |headings|
    ensures forall i :: 0 <= i < |r| ==> r[i] == Entry(style, headings[i], bodies[i])
  {
    seq(|headings|, i requires 0 <= i < |headings| => Entry(style, headings[i], bodies[i]))
  }

  function Layout(style: Style, headings: seq<string>, bodies: seq<string>): string
    requires |headings| == |bodies|
  {
    Concat(Entries(style, headings, bodies))
  }

  /** Element `i` of `xs` sits between the concatenations of the elements before and after it. */
  lemma {:induction false} ConcatAround(xs: seq<string>, i: nat)
    requires i < |xs|
    ensures Concat(xs) == Concat(xs[..i]) + xs[i] + Concat(xs[i + 1..])
  {
    if i == 0 {
      assert xs[..i] == [] && xs[i + 1..] == xs[1..];
    } else {
      var ys := xs[1..];
      ConcatAround(ys, i - 1);
      assert ys[i - 1] == xs[i] && ys[i..] == xs[i + 1..];
      var p := xs[..i];
      assert p[0] == xs[0] && p[1..] == ys[..i - 1];
      calc {
        Concat(xs);
        xs[0] + Concat(ys);
        xs[0] + (Concat(ys[..i - 1]) + xs[i] + Concat(xs[i + 1..]));
        (xs[0] + Concat(p[1..])) + xs[i] + Concat(xs[i + 1..]);
        Concat(p) + xs[i] + Concat(xs[i + 1..]);
      }
    }
  }

  lemma EntriesAround(style: Style, headings: seq<string>, bodies: seq<string>, i: nat)
    requires |headings| == |bodies| && i < |headings|
    ensures Entries(style, headings[..i], bodies[..i]) == Entries(style, headings, bodies)[..i]
    ensures Entries(style, headings[i + 1..], bodies[i + 1..]) == Entries(style, headings, bodies)[i + 1..]
  {
  }

  /** Entry `i` follows entries `0 .. i - 1` and precedes the rest. */
  lemma LayoutOrder(style: Style, headings: seq<string>, bodies: seq<string>, i: nat)
    requires |headings| == |bodies| && i < |headings|
    ensures Layout(style, headings, bodies)
      == Layout(style, headings[..i], bodies[..i]) + Entry(style, headings[i], bodies[i])
         + Layout(style, headings[i + 1..], bodies[i + 1..])
  {
    EntriesAround(style, headings, bodies, i);
    ConcatAround(Entries(style, headings, bodies), i);
  }

  /** The headings of the English summary written on the diagnosis turn, in order. */
  const DiagnosisTurnHeadings := ["Symptoms", "Allergies", "Diagnosis", "Medicine", "Dosage", "Safety Notes"]

  /** The headings used when the summaries are rebuilt on later turns. */
  const LaterTurnHeadings := ["Symptoms", "Allergies", "Diagnosis", "Drug Concept", "Dosage", "Safety"]

  /** The six bodies: the patient's two answers and the four sections. */
  function Bodies(symptoms: string, allergies: string, sec: Report.Sections): seq<string> {
    [symptoms, allergies, sec.diagnosis, sec.drug, sec.dosage, sec.safety]
  }

  predicate StartsWithHashes(s: string) {
    |s| >= 3 && s[..3] == "###"
  }

  /**
   * A non-empty summary with `###` headings starts with "###"; one with bold
   * headings never does. This decides whether a turn rebuilds the summaries.
   */
  lemma SummaryPrefix(style: Style, headings: seq<string>, bodies: seq<string>)
    requires |headings| == |bodies| && headings != []
    ensures StartsWithHashes(Layout(style, headings, bodies)) <==> style == Headed
  {
    var e := Entry(style, headings[0], bodies[0]);
    var r := Layout(style, headings, bodies);
    assert r == e + Concat(Entries(style, headings, bodies)[1..]);
    assert |e| >= 4;
    assert r[..3] == e[..3];
    if style == Headed {
      assert e[..3] == "###";
    } else {
      assert e[0] == '*';
    }
  }
}
