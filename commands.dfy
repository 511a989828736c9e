/** Two character encodings, just far enough to say how the icons of the
    command registry were garbled: UTF-8 (RFC 3629, section 3) and the
    Windows-1252 code page. */
module Encoding {
  import opened Wrappers

  newtype byte = x: int | 0 <= x < 256

  /** The UTF-8 bytes of one Unicode scalar value. */
  function Utf8(c: char): (bytes: seq<byte>)
    ensures 1 <= |bytes| <= 4
  {
    var cp := c as int;
    if cp < 0x80 then [cp as byte]
    else if cp < 0x800 then [(0xC0 + cp / 0x40) as byte, (0x80 + cp % 0x40) as byte]
    else if cp < 0x1_0000 then
      [(0xE0 + cp / 0x1000) as byte, (0x80 + (cp / 0x40) % 0x40) as byte, (0x80 + cp % 0x40) as byte]
    else
      [(0xF0 + cp / 0x4_0000) as byte, (0x80 + (cp / 0x1000) % 0x40) as byte,
       (0x80 + (cp / 0x40) % 0x40) as byte, (0x80 + cp % 0x40) as byte]
  }

  function EncodeUtf8(s: string): seq<byte>
  {
    if s == [] then [] else Utf8(s[0]) + EncodeUtf8(s[1..])
  }

  /** The character Windows-1252 gives a byte; five bytes have none. */
  function Cp1252(b: byte): Option<char>
  {
    if b < 0x80 || 0xA0 <= b then Some(b as int as char)
    else
      match b
      case 0x80 => Some('\U{20AC}')  case 0x82 => Some('\U{201A}')  case 0x83 => Some('\U{0192}')
      case 0x84 => Some('\U{201E}')  case 0x85 => Some('\U{2026}')  case 0x86 => Some('\U{2020}')
      case 0x87 => Some('\U{2021}')  case 0x88 => Some('\U{02C6}')  case 0x89 => Some('\U{2030}')
      case 0x8A => Some('\U{0160}')  case 0x8B => Some('\U{2039}')  case 0x8C => Some('\U{0152}')
      case 0x8E => Some('\U{017D}')  case 0x91 => Some('\U{2018}')  case 0x92 => Some('\U{2019}')
      case 0x93 => Some('\U{201C}')  case 0x94 => Some('\U{201D}')  case 0x95 => Some('\U{2022}')
      case 0x96 => Some('\U{2013}')  case 0x97 => Some('\U{2014}')  case 0x98 => Some('\U{02DC}')
      case 0x99 => Some('\U{2122}')  case 0x9A => Some('\U{0161}')  case 0x9B => Some('\U{203A}')
      case 0x9C => Some('\U{0153}')  case 0x9E => Some('\U{017E}')  case 0x9F => Some('\U{0178}')
      case _ => None
  }

  /** Reading bytes as Windows-1252 text; fails on a byte with no character. */
  function DecodeCp1252(bytes: seq<byte>): Option<string>
  {
    if bytes == [] then Some("")
    else match Cp1252(bytes[0])
      case None => None
      case Some(c) =>
        match DecodeCp1252(bytes[1..])
        case None => None
        case Some(rest) => Some([c] + rest)
  }

  /** What a UTF-8 text looks like when it is read back as Windows-1252. */
  function Misread(s: string): Option<string>
  {
    DecodeCp1252(EncodeUtf8(s))
  }
}

/** The slash-command registry (desktop-app/frontend/src/lib/commands.ts):
    a fixed, ordered list of commands. */
module Commands {
  import opened Wrappers
  import opened Encoding

  /** One entry: a unique id, the label shown (`title` here, since `label`
      is a Dafny keyword), the icon or markdown marker, and a description. */
  datatype Command = Command(id: string, title: string, markdown: string, description: string)

  /** The registry with the icons its authors meant: the single characters
      U+203A, U+2022, U+1F517 and U+2014 for toggle, bullet, reference and
      line. */
  const COMMANDS: seq<Command> := [
    Command("heading-1", "Heading 1", "#", "Large section heading"),
    Command("heading-2", "Heading 2", "##", "Medium section heading"),
    Command("heading-3", "Heading 3", "###", "Small section heading"),
    Command("toggle", "Toggle", "\U{203A}", "Create a collapsible section"),
    Command("bullet", "Bulletpoint", "\U{2022}", "Create a bulleted list item"),
    Command("reference", "Reference", "\U{1F517}", "Insert a hyperlink"),
    Command("line", "Line", "\U{2014}", "Insert a horizontal rule")
  ]

  /** The registry as the file spells it: the four icons are the UTF-8 bytes
      of the intended characters read back as Windows-1252. */
  const COMMANDS_AS_WRITTEN: seq<Command> := [
    Command("heading-1", "Heading 1", "#", "Large section heading"),
    Command("heading-2", "Heading 2", "##", "Medium section heading"),
    Command("heading-3", "Heading 3", "###", "Small section heading"),
    Command("toggle", "Toggle", "\U{00E2}\U{20AC}\U{00BA}", "Create a collapsible section"),
    Command("bullet", "Bulletpoint", "\U{00E2}\U{20AC}\U{00A2}", "Create a bulleted list item"),
    Command("reference", "Reference", "\U{00F0}\U{0178}\U{201D}\U{2014}", "Insert a hyperlink"),
    Command("line", "Line", "\U{00E2}\U{20AC}\U{201D}", "Insert a horizontal rule")
  ]

  function Ids(commands: seq<Command>): (ids: seq<string>)
    ensures |ids| == |commands|
    ensures forall i :: 0 <= i < |commands| ==> ids[i] == commands[i].id
  {
    if commands == [] then [] else [commands[0].id] + Ids(commands[1..])
  }

  /** Seven commands, with the ids in the order the file lists them. */
  predicate InSourceOrder(commands: seq<Command>)
  {
    Ids(commands) == ["heading-1", "heading-2", "heading-3", "toggle", "bullet", "reference", "line"]
  }

  /** No two entries share an id. */
  predicate UniqueIds(commands: seq<Command>)
  {
    forall i, j :: 0 <= i < j < |commands| ==> commands[i].id != commands[j].id
  }

  function Hashes(k: nat): (s: string)
    ensures |s| == k && forall c :: c in s ==> c == '#'
  {
    if k == 0 then "" else "#" + Hashes(k - 1)
  }

  /** Heading `k`, for k from 1 to 3, is entry k - 1, with id "heading-k"
      and markdown of k '#' characters. */
  predicate HeadingsFirst(commands: seq<Command>)
  {
    |commands| >= 3 &&
    forall i :: 0 <= i < 3 ==>
      commands[i].id == "heading-" + [(('1' as int) + i) as char] &&
      commands[i].markdown == Hashes(i + 1)
  }

  /** Every entry has a label, an icon and a description. */
  predicate FieldsFilled(commands: seq<Command>)
  {
    forall c :: c in commands ==> c.title != "" && c.markdown != "" && c.description != ""
  }

  /** Both the intended list and the list as written have seven entries in
      the source order. */
  lemma CommandOrder()
    ensures |COMMANDS| == 7 && InSourceOrder(COMMANDS)
    ensures |COMMANDS_AS_WRITTEN| == 7 && InSourceOrder(COMMANDS_AS_WRITTEN)
  {
    AsWrittenIsMisread();
    assert Ids(COMMANDS_AS_WRITTEN) == Ids(COMMANDS);
  }

  /** Any list whose ids are the source's, in order, has unique ids. */
  lemma {:induction false} SourceOrderIdsAreUnique(commands: seq<Command>)
    requires InSourceOrder(commands)
    ensures |commands| == 7 && UniqueIds(commands)
  {
    var ids := Ids(commands);
    forall i, j | 0 <= i < j < |commands|
      ensures commands[i].id != commands[j].id
    {
      assert ids[i] == commands[i].id && ids[j] == commands[j].id;
    }
  }

  /** No two entries share an id, in either list. */
  lemma IdsAreUnique()
    ensures UniqueIds(COMMANDS) && UniqueIds(COMMANDS_AS_WRITTEN)
  {
    CommandOrder();
    SourceOrderIdsAreUnique(COMMANDS);
    SourceOrderIdsAreUnique(COMMANDS_AS_WRITTEN);
  }

  lemma HeadingMarkdown()
    ensures HeadingsFirst(COMMANDS) && HeadingsFirst(COMMANDS_AS_WRITTEN)
  {
    assert Hashes(1) == "#" && Hashes(2) == "##" && Hashes(3) == "###";
  }

  /** The entry at index 1 is heading 2, in any list whose headings come first. */
  lemma {:induction false} SecondIsHeadingTwo(commands: seq<Command>)
    requires HeadingsFirst(commands)
    ensures |commands| > 1 && commands[1].id == "heading-2" && commands[1].markdown == "##"
  {
    assert commands[1].markdown == Hashes(2);
    assert Hashes(2) == "#" + Hashes(1);
    assert Hashes(1) == "#" + Hashes(0);
  }

  lemma FieldsNonEmpty()
    ensures FieldsFilled(COMMANDS) && FieldsFilled(COMMANDS_AS_WRITTEN)
  {
  }

  /** The icons of the non-heading commands are single characters. */
  lemma IconsAreSingleCharacters()
    ensures forall i :: 3 <= i < |COMMANDS| ==> |COMMANDS[i].markdown| == 1
  {
  }

  lemma DecodeCons(b: byte, rest: seq<byte>, c: char, text: string)
    requires Cp1252(b) == Some(c) && DecodeCp1252(rest) == Some(text)
    ensures DecodeCp1252([b] + rest) == Some([c] + text)
  {
  }

  /** A character whose three UTF-8 bytes, read one by one as Windows-1252,
      give `shown`. */
  lemma MisreadThree(c: char, bytes: seq<byte>, shown: string)
    requires |bytes| == 3 && |shown| == 3 && Utf8(c) == bytes
    requires forall i :: 0 <= i < 3 ==> Cp1252(bytes[i]) == Some(shown[i])
    ensures Misread([c]) == Some(shown)
  {
    assert EncodeUtf8([c]) == bytes + EncodeUtf8([]);
    assert bytes + [] == bytes;
    DecodeCons(bytes[2], [], shown[2], "");
    assert [bytes[2]] + [] == [bytes[2]] && [shown[2]] + "" == [shown[2]];
    DecodeCons(bytes[1], [bytes[2]], shown[1], [shown[2]]);
    assert [bytes[1]] + [bytes[2]] == [bytes[1], bytes[2]] && [shown[1]] + [shown[2]] == [shown[1], shown[2]];
    DecodeCons(bytes[0], [bytes[1], bytes[2]], shown[0], [shown[1], shown[2]]);
    assert [bytes[0]] + [bytes[1], bytes[2]] == bytes;
    assert [shown[0]] + [shown[1], shown[2]] == shown;
  }

  /** The link icon's four UTF-8 bytes, read as Windows-1252. */
  lemma MisreadLink()
    ensures Misread("\U{1F517}") == Some("\U{00F0}\U{0178}\U{201D}\U{2014}")
  {
    var link: seq<byte> := [0xF0, 0x9F, 0x94, 0x97];
    assert Utf8('\U{1F517}') == link;
    assert EncodeUtf8("\U{1F517}") == link + EncodeUtf8("");
    assert link + [] == link;
    DecodeCons(0x97, [], '\U{2014}', "");
    assert [0x97 as byte] + [] == [0x97] && "\U{2014}" + "" == "\U{2014}";
    DecodeCons(0x94, [0x97], '\U{201D}', "\U{2014}");
    assert [0x94 as byte] + [0x97] == link[2..] && "\U{201D}" + "\U{2014}" == "\U{201D}\U{2014}";
    DecodeCons(0x9F, link[2..], '\U{0178}', "\U{201D}\U{2014}");
    assert [0x9F as byte] + link[2..] == link[1..];
    assert "\U{0178}" + "\U{201D}\U{2014}" == "\U{0178}\U{201D}\U{2014}";
    DecodeCons(0xF0, link[1..], '\U{00F0}', "\U{0178}\U{201D}\U{2014}");
    assert [0xF0 as byte] + link[1..] == link;
    assert "\U{00F0}" + "\U{0178}\U{201D}\U{2014}" == "\U{00F0}\U{0178}\U{201D}\U{2014}";
    assert Misread("\U{1F517}") == Some("\U{00F0}\U{0178}\U{201D}\U{2014}");
  }

  /** The list as written differs from the intended one only in those four
      icons, each of which is the intended icon misread: three or four
      characters where one was meant. */
  lemma AsWrittenIsMisread()
    ensures |COMMANDS_AS_WRITTEN| == |COMMANDS|
    ensures forall i :: 0 <= i < |COMMANDS| ==>
              COMMANDS_AS_WRITTEN[i].id == COMMANDS[i].id &&
              COMMANDS_AS_WRITTEN[i].title == COMMANDS[i].title &&
              COMMANDS_AS_WRITTEN[i].description == COMMANDS[i].description
    ensures forall i :: 0 <= i < 3 ==> COMMANDS_AS_WRITTEN[i].markdown == COMMANDS[i].markdown
    ensures forall i :: 3 <= i < |COMMANDS| ==>
              Misread(COMMANDS[i].markdown) == Some(COMMANDS_AS_WRITTEN[i].markdown) &&
              |COMMANDS_AS_WRITTEN[i].markdown| > 1
  {
    MisreadThree('\U{203A}', [0xE2, 0x80, 0xBA], "\U{00E2}\U{20AC}\U{00BA}");
    MisreadThree('\U{2022}', [0xE2, 0x80, 0xA2], "\U{00E2}\U{20AC}\U{00A2}");
    MisreadThree('\U{2014}', [0xE2, 0x80, 0x94], "\U{00E2}\U{20AC}\U{201D}");
    MisreadLink();
  }
}
