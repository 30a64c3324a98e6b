/**
 * middleware/logger.go: colorizeMethod and colorizeStatus, which wrap an
 * HTTP method or status code in an ECMA-48 "select graphic rendition"
 * escape (ESC [ 3x m, section 8.3.117 of ECMA-48) and a reset (ESC [ 0 m).
 */
module Logger {
  import opened Wrappers
  import opened GoStrings

  const Esc: char := '\U{1B}'

  /** The foreground colours the logger uses, with their SGR parameters 31..37. */
  datatype Color = Red | Green | Yellow | Blue | Magenta | Cyan | White

  function Code(c: Color): char {
    match c
    case Red => '1'
    case Green => '2'
    case Yellow => '3'
    case Blue => '4'
    case Magenta => '5'
    case Cyan => '6'
    case White => '7'
  }

  /** The escape that selects a colour, five characters long. */
  function Escape(c: Color): (r: string)
    ensures |r| == 5
  {
    [Esc, '[', '3', Code(c), 'm']
  }

  /** The escape that resets all attributes. */
  const Reset: string := [Esc, '[', '0', 'm']

  /** colorizeMethod: one colour per method name, exact and case-sensitive; cyan for any other. */
  function ColorizeMethod(verb: string): (r: string)
    ensures r == Escape(if verb in MethodColors then MethodColors[verb] else Cyan) + verb + Reset
  {
    match verb
    case "GET" => Escape(Green) + verb + Reset
    case "POST" => Escape(Blue) + verb + Reset
    case "PUT" => Escape(Yellow) + verb + Reset
    case "DELETE" => Escape(Red) + verb + Reset
    case "PATCH" => Escape(Magenta) + verb + Reset
    case _ => Escape(Cyan) + verb + Reset
  }

  /** colorizeStatus: the decimal status in the colour of its range. */
  function ColorizeStatus(status: int): (r: string)
    ensures r == Escape(StatusColor(status)) + Itoa(status) + Reset
  {
    var statusStr := Itoa(status);
    if status >= 200 && status < 300 then Escape(Green) + statusStr + Reset
    else if status >= 300 && status < 400 then Escape(Yellow) + statusStr + Reset
    else if status >= 400 && status < 500 then Escape(Red) + statusStr + Reset
    else if status >= 500 then Escape(Red) + statusStr + Reset
    else Escape(White) + statusStr + Reset
  }

  /** The method colours as a table; every name outside it is cyan. */
  const MethodColors: map<string, Color> :=
    map["GET" := Green, "POST" := Blue, "PUT" := Yellow, "DELETE" := Red, "PATCH" := Magenta]

  function ColorOfCode(d: char): Option<Color> {
    match d
    case '1' => Some(Red)
    case '2' => Some(Green)
    case '3' => Some(Yellow)
    case '4' => Some(Blue)
    case '5' => Some(Magenta)
    case '6' => Some(Cyan)
    case '7' => Some(White)
    case _ => None
  }

  /** Reads back a coloured string: the colour of its leading escape and the text before the trailing reset. */
  function Uncolor(s: string): Option<(Color, string)> {
    if |s| >= 9 && s[0] == Esc && s[1] == '[' && s[2] == '3' && ColorOfCode(s[3]).Some? && s[4] == 'm'
       && s[|s| - 4..] == Reset
    then Some((ColorOfCode(s[3]).value, s[5..|s| - 4]))
    else None
  }

  lemma CodeRoundTrip(c: Color)
    ensures ColorOfCode(Code(c)) == Some(c)
  {
  }

  /** Any text wrapped in a colour and a reset reads back as that colour and that text. */
  lemma UncolorWrapped(c: Color, text: string)
    ensures Uncolor(Escape(c) + text + Reset) == Some((c, text))
  {
    var s := Escape(c) + text + Reset;
    CodeRoundTrip(c);
    assert s[..5] == Escape(c);
    assert s[|s| - 4..] == Reset;
    assert s[5..|s| - 4] == text;
  }

  /** colorizeMethod keeps the method text and colours it by the table, cyan by default. */
  lemma MethodColorsAgree(verb: string)
    ensures Uncolor(ColorizeMethod(verb))
         == Some((if verb in MethodColors then MethodColors[verb] else Cyan, verb))
  {
    if verb in MethodColors {
      UncolorWrapped(MethodColors[verb], verb);
    } else {
      UncolorWrapped(Cyan, verb);
    }
  }

  /** Lower-case method names are not recognised and come out cyan. */
  lemma LowerCaseIsCyan()
    ensures Uncolor(ColorizeMethod("get")) == Some((Cyan, "get"))
    ensures Uncolor(ColorizeMethod("post")) == Some((Cyan, "post"))
  {
    MethodColorsAgree("get");
    MethodColorsAgree("post");
  }

  /** The colour of a status's range: exactly one range applies to every integer. */
  function StatusColor(status: int): (c: Color)
    ensures c == White <==> status < 200
    ensures c == Green <==> 200 <= status < 300
    ensures c == Yellow <==> 300 <= status < 400
    ensures c == Red <==> 400 <= status
  {
    if status < 200 then White else if status < 300 then Green else if status < 400 then Yellow else Red
  }

  /** colorizeStatus reads back as the colour of the status's range and the status itself. */
  lemma StatusRoundTrip(status: int)
    ensures Uncolor(ColorizeStatus(status)).Some?
    ensures Uncolor(ColorizeStatus(status)).value.0 == StatusColor(status)
    ensures Atoi(Uncolor(ColorizeStatus(status)).value.1) == Some(status)
  {
    UncolorWrapped(StatusColor(status), Itoa(status));
    ItoaRoundTrip(status);
  }
}
