/**
 * Terminal styling (src/style.rs). A `Styler` wraps text in the "select graphic
 * rendition" control sequence of ECMA-48 (section 8.3.117): ESC '[' parameters 'm',
 * followed by the text and the reset sequence ESC "[0m".
 */
module Style {
  import opened Wrappers
  import opened Text

  const Esc: char := '\U{1B}'

  /** ESC '[' — the control sequence introducer. */
  const Csi: string := [Esc, '[']

  /** The sequence that resets every rendition attribute. */
  const Reset: string := Csi + "0m"

  datatype Color = Red | Green | Yellow | Blue | Magenta | Cyan {
    /** The colour's code, written after "38" and "2" in the parameter list. */
    function Rgb(): (code: string)
      ensures |code| == 2 && code[0] == '3' && IsDigit(code[1])
    {
      match this
      case Red => "31"
      case Green => "32"
      case Yellow => "33"
      case Blue => "34"
      case Magenta => "35"
      case Cyan => "36"
    }
  }

  /** The colour codes as numbers: red 31 up to cyan 36, all distinct. */
  lemma ColorCodes()
    ensures Red.Rgb() == "31" && Green.Rgb() == "32" && Yellow.Rgb() == "33"
    ensures Blue.Rgb() == "34" && Magenta.Rgb() == "35" && Cyan.Rgb() == "36"
    ensures forall a: Color, b: Color :: a.Rgb() == b.Rgb() ==> a == b
  {
  }

  datatype Styler = Styler(fg: Option<Color>, bold: bool, underline: bool) {

    function Fg(color: Color): (r: Styler)
      ensures r.fg == Some(color) && r.bold == bold && r.underline == underline
    {
      this.(fg := Some(color))
    }

    function Bold(yes: bool): (r: Styler)
      ensures r.fg == fg && r.bold == yes && r.underline == underline
    {
      this.(bold := yes)
    }

    function Underline(yes: bool): (r: Styler)
      ensures r.fg == fg && r.bold == bold && r.underline == yes
    {
      this.(underline := yes)
    }

    predicate IsPlain() {
      fg.None? && !bold && !underline
    }

    /** The parameter list, built by successive pushes: the colour ("38", "2", code),
        then "1" for bold, then "4" for underline. */
    function Codes(): (codes: seq<string>)
      ensures codes == [] <==> IsPlain()
    {
      (if fg.Some? then ["38", "2", fg.value.Rgb()] else [])
      + (if bold then ["1"] else [])
      + (if underline then ["4"] else [])
    }

    /** The text wrapped in the rendition sequence, or unchanged when nothing is set. */
    function Style(s: string): (r: string)
      ensures IsPlain() ==> r == s
      ensures !IsPlain() ==> r == Csi + Join(Codes(), ";") + "m" + s + Reset
      ensures r == s <==> IsPlain()
    {
      var codes := Codes();
      if codes == [] then s
      else Csi + Join(codes, ";") + "m" + s + Reset
    }
  }

  /** `Styler::default()`: no colour, not bold, not underlined. */
  function Default(): Styler {
    Styler(None, false, false)
  }

  /** The default styler leaves text exactly as it is. */
  lemma DefaultIsIdentity(s: string)
    ensures Default().Style(s) == s
  {
  }

  /** Each setter changes only its own field, and a second call of the same setter wins. */
  lemma SettersLastCallWins(st: Styler, c1: Color, c2: Color, b1: bool, b2: bool)
    ensures st.Fg(c1).Fg(c2) == st.Fg(c2)
    ensures st.Bold(b1).Bold(b2) == st.Bold(b2)
    ensures st.Underline(b1).Underline(b2) == st.Underline(b2)
    ensures st.Fg(c1).Bold(b1) == st.Bold(b1).Fg(c1)
    ensures st.Fg(c1).Underline(b1) == st.Underline(b1).Fg(c1)
    ensures st.Bold(b1).Underline(b2) == st.Underline(b2).Bold(b1)
  {
  }

  /** The parameters come in push order: the colour triple first, then "1" exactly when
      bold, then "4" exactly when underlined, last. */
  lemma CodesOrder(st: Styler)
    ensures var codes := st.Codes();
            |codes| == (if st.fg.Some? then 3 else 0) + (if st.bold then 1 else 0) + (if st.underline then 1 else 0) &&
            (st.fg.Some? ==> codes[..3] == ["38", "2", st.fg.value.Rgb()]) &&
            (st.bold <==> "1" in codes) && (st.underline <==> "4" in codes) &&
            (st.bold ==> codes[|codes| - (if st.underline then 2 else 1)] == "1") &&
            (st.underline ==> codes[|codes| - 1] == "4")
  {
  }

  /** The parameter list is a run of decimal numbers separated by ';', as the rendition
      sequence requires. */
  lemma {:induction false} ParametersShape(st: Styler)
    requires !st.IsPlain()
    ensures var p := Join(st.Codes(), ";");
            |p| > 0 && IsDigit(p[0]) && IsDigit(p[|p| - 1]) &&
            forall i :: 0 <= i < |p| ==> IsDigit(p[i]) || p[i] == ';'
  {
    var codes := st.Codes();
    assert forall k :: 0 <= k < |codes| ==> |codes[k]| > 0 && AllDigits(codes[k]);
    JoinOfNumerals(codes);
  }

  lemma {:induction false} JoinOfNumerals(codes: seq<string>)
    requires |codes| > 0
    requires forall k :: 0 <= k < |codes| ==> |codes[k]| > 0 && AllDigits(codes[k])
    ensures var p := Join(codes, ";");
            |p| > 0 && IsDigit(p[0]) && IsDigit(p[|p| - 1]) &&
            forall i :: 0 <= i < |p| ==> IsDigit(p[i]) || p[i] == ';'
    decreases |codes|
  {
    if |codes| > 1 {
      JoinOfNumerals(codes[1..]);
      var tail := Join(codes[1..], ";");
      assert Join(codes, ";") == codes[0] + ";" + tail;
    }
  }

  /** Concrete parameter lists: a red, bold and underlined styler, and bold alone. */
  lemma ParameterExamples()
    ensures Join(Default().Bold(true).Underline(true).Fg(Red).Codes(), ";") == "38;2;31;1;4"
    ensures Join(Default().Bold(true).Codes(), ";") == "1"
    ensures Default().Bold(true).Style("bold") == Csi + "1m" + "bold" + Reset
  {
    var codes := Default().Bold(true).Underline(true).Fg(Red).Codes();
    assert codes == ["38", "2", "31", "1", "4"];
  }

  /** Styling adds only the control sequences, which hold no line feed. */
  lemma StyleNoNewline(st: Styler, s: string)
    requires '\n' !in s
    ensures '\n' !in st.Style(s)
  {
    if !st.IsPlain() {
      ParametersShape(st);
      var p := Join(st.Codes(), ";");
      assert '\n' !in p by {
        forall i | 0 <= i < |p| ensures p[i] != '\n' {
          assert IsDigit(p[i]) || p[i] == ';';
        }
      }
      var r := st.Style(s);
      assert r == Csi + p + "m" + s + Reset;
      forall i | 0 <= i < |r| ensures r[i] != '\n' {
        if i < 2 {
          assert r[i] == Csi[i];
        } else if i < 2 + |p| {
          assert r[i] == p[i - 2];
        } else if i < 3 + |p| {
          assert r[i] == 'm';
        } else if i < 3 + |p| + |s| {
          assert r[i] == s[i - 3 - |p|];
        } else {
          assert r[i] == Reset[i - 3 - |p| - |s|];
        }
      }
    }
  }
}
