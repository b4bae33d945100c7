/**
 The checkpoint files: how a list of bucket names is written (each name
 followed by a newline, the file truncated first) and read back (the file's
 lines, each with its trailing whitespace removed), and the file system the
 script writes them to.

 Reading opens the file in Python's text mode, which turns "\r\n" and a lone
 "\r" into "\n" before the lines are split; writing on a POSIX system leaves
 "\n" as it is.
 */
module Checkpoint {
  import opened S3Api

  /** Python's `str.isspace` for one character. */
  predicate IsSpace(c: char)
  {
    || ('\t' <= c <= '\r')
    || ('\U{1C}' <= c <= ' ')
    || c == '\U{85}' || c == '\U{A0}' || c == '\U{1680}'
    || ('\U{2000}' <= c <= '\U{200A}')
    || c == '\U{2028}' || c == '\U{2029}' || c == '\U{202F}' || c == '\U{205F}' || c == '\U{3000}'
  }

  /** Python's `str.rstrip()` with no argument: the longest prefix followed only by whitespace. */
  function RStrip(s: string): (r: string)
    ensures |r| <= |s| && r == s[..|r|]
    ensures r == [] || !IsSpace(r[|r| - 1])
    ensures forall k :: |r| <= k < |s| ==> IsSpace(s[k])
  {
    if s != [] && IsSpace(s[|s| - 1]) then RStrip(s[..|s| - 1]) else s
  }

  /**
   Universal-newline translation done by a file opened for reading in text
   mode: "\r\n" and a lone "\r" become "\n", every other character is kept.
   */
  function TranslateNewlines(raw: string): (t: string)
    ensures '\r' !in t
    ensures |t| <= |raw|
  {
    if raw == [] then []
    else if raw[0] == '\r' then
      "\n" + TranslateNewlines(if |raw| > 1 && raw[1] == '\n' then raw[2..] else raw[1..])
    else [raw[0]] + TranslateNewlines(raw[1..])
  }

  /** The first line of a non-empty text, its terminating newline included when there is one. */
  function FirstLine(t: string): (l: string)
    requires t != []
    ensures 0 < |l| <= |t| && l == t[..|l|]
    ensures forall k :: 0 <= k < |l| - 1 ==> l[k] != '\n'
    ensures l[|l| - 1] == '\n' || |l| == |t|
  {
    if t[0] == '\n' || |t| == 1 then [t[0]] else [t[0]] + FirstLine(t[1..])
  }

  function Flatten(lines: seq<string>): string
  {
    if lines == [] then [] else lines[0] + Flatten(lines[1..])
  }

  /** A line as `readlines` returns it: non-empty, with a newline at most in its last position. */
  predicate LineShaped(l: string)
  {
    l != [] && forall k :: 0 <= k < |l| - 1 ==> l[k] != '\n'
  }

  /** Python's `readlines()` on an already translated text. */
  function ReadLines(t: string): (lines: seq<string>)
    ensures Flatten(lines) == t
    ensures forall i :: 0 <= i < |lines| ==> LineShaped(lines[i])
    ensures forall i :: 0 <= i < |lines| - 1 ==> lines[i] != [] && lines[i][|lines[i]| - 1] == '\n'
    decreases |t|
  {
    if t == [] then []
    else
      var l := FirstLine(t);
      assert t == l + t[|l|..];
      [l] + ReadLines(t[|l|..])
  }

  /** `[line.rstrip() for line in lines]` */
  function StripAll(lines: seq<string>): (names: seq<BucketName>)
    ensures |names| == |lines|
    ensures forall i :: 0 <= i < |lines| ==> names[i] == RStrip(lines[i])
  {
    if lines == [] then [] else [RStrip(lines[0])] + StripAll(lines[1..])
  }

  /**
   `[line.rstrip() for line in file.readlines()]` on the raw file content.
   Whatever the file holds, every name read from it is clean.
   */
  function Decode(raw: string): (names: seq<BucketName>)
    ensures forall i :: 0 <= i < |names| ==> CleanName(names[i])
  {
    var t := TranslateNewlines(raw);
    StripAllClean(t);
    StripAll(ReadLines(t))
  }

  /**
   What the writing loop leaves in the file: each name followed by a newline.
   The last character of a non-empty file is a newline, and no carriage
   return is introduced.
   */
  function Encode(names: seq<BucketName>): (text: string)
    ensures (forall i :: 0 <= i < |names| ==> '\r' !in names[i]) ==> '\r' !in text
    ensures names != [] ==> text != [] && text[|text| - 1] == '\n'
  {
    if names == [] then []
    else
      assert forall i :: 0 <= i < |names| - 1 ==> names[1..][i] == names[i + 1];
      names[0] + "\n" + Encode(names[1..])
  }

  /** Names without line breaks give exactly one newline per record. */
  lemma {:induction false} OneNewlinePerRecord(names: seq<BucketName>)
    requires forall i :: 0 <= i < |names| ==> '\n' !in names[i]
    ensures multiset(Encode(names))['\n'] == |names|
  {
    if names != [] {
      OneNewlinePerRecord(names[1..]);
      assert multiset(names[0])['\n'] == 0;
      assert Encode(names) == names[0] + "\n" + Encode(names[1..]);
      assert multiset(Encode(names)) == multiset(names[0]) + multiset("\n") + multiset(Encode(names[1..]));
    }
  }

  /** The file a system with another line convention would write: each name followed by `eol`. */
  function EncodeWith(names: seq<BucketName>, eol: string): string
  {
    if names == [] then [] else names[0] + eol + EncodeWith(names[1..], eol)
  }

  /** A name that survives the trip through the file unchanged. */
  predicate CleanName(name: BucketName)
  {
    && '\n' !in name
    && '\r' !in name
    && (name == [] || !IsSpace(name[|name| - 1]))
  }

  /** One more iteration of the writing loop appends one record. */
  lemma {:induction false} EncodeSnoc(names: seq<BucketName>, x: BucketName)
    ensures Encode(names + [x]) == Encode(names) + x + "\n"
  {
    if names != [] {
      assert (names + [x])[1..] == names[1..] + [x];
      EncodeSnoc(names[1..], x);
    }
  }

  lemma {:induction false} FirstLineOfRecord(x: string, rest: string)
    requires '\n' !in x
    ensures FirstLine(x + "\n" + rest) == x + "\n"
  {
    if x != [] {
      assert (x + "\n" + rest)[1..] == x[1..] + "\n" + rest;
      FirstLineOfRecord(x[1..], rest);
    }
  }

  lemma {:induction false} ReadLinesOfEncode(names: seq<BucketName>)
    requires forall i :: 0 <= i < |names| ==> '\n' !in names[i]
    ensures |ReadLines(Encode(names))| == |names|
    ensures forall i :: 0 <= i < |names| ==> ReadLines(Encode(names))[i] == names[i] + "\n"
  {
    if names != [] {
      var t := Encode(names);
      var l := names[0] + "\n";
      FirstLineOfRecord(names[0], Encode(names[1..]));
      assert t[|l|..] == Encode(names[1..]);
      ReadLinesOfEncode(names[1..]);
    }
  }

  /**
   Checkpoint round trip: reading back what was written gives the list that
   was written, in order, duplicates and the empty list included, when no name
   holds a line break or ends in whitespace.
   */
  lemma RoundTrip(names: seq<BucketName>)
    requires forall i :: 0 <= i < |names| ==> CleanName(names[i])
    ensures Decode(Encode(names)) == names
  {
    var text := Encode(names);
    assert '\r' !in text;
    TranslateFixesPlain(text);
    assert Decode(text) == StripAll(ReadLines(text));
    ReadLinesOfEncode(names);
    var lines := ReadLines(text);
    var d := StripAll(lines);
    forall i | 0 <= i < |names|
      ensures d[i] == names[i]
    {
      RStripRecord(names[i]);
    }
  }

  lemma RStripRecord(x: BucketName)
    requires CleanName(x)
    ensures RStrip(x + "\n") == x
  {
    RStripNewline(x);
  }

  /**
   The round trip needs its condition: a single name without line breaks
   comes back with its trailing whitespace removed, so a name that ends in
   whitespace does not come back as written.
   */
  lemma TrailingWhitespaceLost(x: BucketName)
    requires '\n' !in x && '\r' !in x
    ensures Decode(Encode([x])) == [RStrip(x)]
    ensures x != [] && IsSpace(x[|x| - 1]) ==> Decode(Encode([x])) != [x]
  {
    var t := Encode([x]);
    EncodeOne(x);
    TranslateFixesPlain(t);
    ReadLinesOfEncode([x]);
    var lines := ReadLines(t);
    assert lines == [x + "\n"];
    RStripNewline(x);
    assert StripAll(lines) == [RStrip(x)];
  }

  lemma EncodeOne(x: BucketName)
    ensures Encode([x]) == x + "\n"
  {
    assert [x][1..] == [];
    assert x + "\n" + [] == x + "\n";
  }

  lemma RStripNewline(x: string)
    ensures RStrip(x + "\n") == RStrip(x)
  {
    assert (x + "\n")[..|x|] == x;
  }

  lemma {:induction false} LinesDrawFromText(t: string)
    ensures forall i, k :: 0 <= i < |ReadLines(t)| && 0 <= k < |ReadLines(t)[i]| ==> ReadLines(t)[i][k] in t
    decreases |t|
  {
    if t != [] {
      var l := FirstLine(t);
      LinesDrawFromText(t[|l|..]);
      var lines := ReadLines(t);
      assert lines == [l] + ReadLines(t[|l|..]);
      forall i, k | 0 <= i < |lines| && 0 <= k < |lines[i]|
        ensures lines[i][k] in t
      {
        if i == 0 {
          assert lines[i][k] == t[k];
        } else {
          assert lines[i] == ReadLines(t[|l|..])[i - 1];
          assert lines[i][k] in t[|l|..];
        }
      }
    }
  }

  /** What `rstrip` leaves of a line `readlines` returned holds no line break. */
  lemma StrippedLineClean(line: string)
    requires LineShaped(line)
    requires forall k :: 0 <= k < |line| ==> line[k] != '\r'
    ensures CleanName(RStrip(line))
  {
    var r := RStrip(line);
    forall k | 0 <= k < |r|
      ensures r[k] != '\n' && r[k] != '\r'
    {
      assert r[k] == line[k];
      if k == |line| - 1 {
        assert r[k] == r[|r| - 1];
      }
    }
  }

  /** The names `rstrip` leaves of the lines of a translated text are clean. */
  lemma StripAllClean(t: string)
    requires '\r' !in t
    ensures forall i :: 0 <= i < |StripAll(ReadLines(t))| ==> CleanName(StripAll(ReadLines(t))[i])
  {
    var lines := ReadLines(t);
    LinesDrawFromText(t);
    var d := StripAll(lines);
    forall i | 0 <= i < |d|
      ensures CleanName(d[i])
    {
      forall k | 0 <= k < |lines[i]|
        ensures lines[i][k] != '\r'
      {
        assert lines[i][k] in t;
      }
      StrippedLineClean(lines[i]);
    }
  }

  /** Writing back what was read from any file and reading it again gives the same list. */
  lemma DecodeStable(raw: string)
    ensures Decode(Encode(Decode(raw))) == Decode(raw)
  {
    RoundTrip(Decode(raw));
  }

  /** Reading one record terminated by "\n", "\r\n" or a lone "\r" in text mode. */
  lemma TranslateRecord(x: BucketName, eol: string, rest: string)
    requires '\r' !in x
    requires eol == "\n" || eol == "\r\n" || eol == "\r"
    requires eol == "\r" ==> rest == [] || rest[0] != '\n'
    ensures TranslateNewlines(x + eol + rest) == x + "\n" + TranslateNewlines(rest)
  {
    var tail := TranslateNewlines(rest);
    assert TranslateNewlines(x + eol + rest) == x + TranslateNewlines(eol + rest) by {
      assert x + eol + rest == x + (eol + rest);
      TranslatePlain(x, eol + rest);
    }
    assert TranslateNewlines(eol + rest) == "\n" + tail by {
      TranslateLineEnd(eol, rest);
    }
    assert x + ("\n" + tail) == x + "\n" + tail;
  }

  /** Text without carriage returns passes through text-mode reading unchanged, whatever follows it. */
  lemma {:induction false} TranslatePlain(x: string, s: string)
    requires '\r' !in x
    ensures TranslateNewlines(x + s) == x + TranslateNewlines(s)
  {
    if x != [] {
      var y := x[1..] + s;
      assert x + s == [x[0]] + y;
      assert ([x[0]] + y)[0] == x[0] && ([x[0]] + y)[1..] == y;
      assert TranslateNewlines(x + s) == [x[0]] + TranslateNewlines(y);
      TranslatePlain(x[1..], s);
      assert [x[0]] + (x[1..] + TranslateNewlines(s)) == x + TranslateNewlines(s);
    } else {
      assert x + s == s;
    }
  }

  /** Text-mode reading leaves a text unchanged exactly when it has no carriage return. */
  lemma TranslateFixesPlain(raw: string)
    ensures TranslateNewlines(raw) == raw <==> '\r' !in raw
  {
    if '\r' !in raw {
      TranslatePlain(raw, []);
      assert raw + [] == raw;
    }
  }

  lemma TranslateLineEnd(eol: string, rest: string)
    requires eol == "\n" || eol == "\r\n" || eol == "\r"
    requires eol == "\r" ==> rest == [] || rest[0] != '\n'
    ensures TranslateNewlines(eol + rest) == "\n" + TranslateNewlines(rest)
  {
    var raw := eol + rest;
    if eol == "\r\n" {
      assert raw[0] == '\r' && raw[1] == '\n' && raw[2..] == rest;
    } else if eol == "\r" {
      assert raw[0] == '\r' && raw[1..] == rest;
      assert !(|raw| > 1 && raw[1] == '\n');
    } else {
      assert raw[0] == '\n' && raw[1..] == rest;
    }
  }

  lemma {:induction false} TranslateRecords(names: seq<BucketName>, eol: string)
    requires forall i :: 0 <= i < |names| ==> CleanName(names[i])
    requires eol == "\n" || eol == "\r\n" || eol == "\r"
    ensures TranslateNewlines(EncodeWith(names, eol)) == Encode(names)
  {
    if names != [] {
      var rest := EncodeWith(names[1..], eol);
      assert eol == "\r" ==> rest == [] || rest[0] != '\n' by {
        if names[1..] != [] {
          assert CleanName(names[1]);
          assert rest == names[1] + eol + EncodeWith(names[2..], eol) by {
            assert names[1..][0] == names[1] && names[1..][1..] == names[2..];
          }
          if names[1] != [] {
            assert rest[0] == names[1][0];
          } else {
            assert rest[0] == eol[0];
          }
        }
      }
      TranslateRecord(names[0], eol, rest);
      TranslateRecords(names[1..], eol);
    }
  }

  /**
   A checkpoint whose clean names end in "\r\n" or a lone "\r" instead of
   "\n" reads as the same list: text mode translates the line endings first.
   */
  lemma LineEndingsAgree(names: seq<BucketName>, eol: string)
    requires forall i :: 0 <= i < |names| ==> CleanName(names[i])
    requires eol == "\n" || eol == "\r\n" || eol == "\r"
    ensures Decode(EncodeWith(names, eol)) == names
  {
    TranslateRecords(names, eol);
    assert '\r' !in Encode(names);
    TranslateFixesPlain(Encode(names));
    RoundTrip(names);
  }

  /** A lone "\r" inside a name is read as a line break and splits the name in two. */
  lemma CarriageReturnSplits()
    ensures TranslateNewlines("a\rb\n") == "a\nb\n"
    ensures Decode("a\rb\n") == ["a", "b"]
  {
    TranslateRecord("a", "\r", "b\n");
    assert TranslateNewlines("b\n") == "b\n";
    assert "a" + "\r" + "b\n" == "a\rb\n";
    assert "a" + "\n" + "b\n" == "a\nb\n";
    assert "a\nb\n" == Encode(["a", "b"]) by {
      EncodeOne("b");
      assert ["a", "b"][1..] == ["b"];
    }
    RoundTrip(["a", "b"]);
  }

  /** The directory the script reads and writes: file name to file content. */
  class FileSystem {
    var files: map<string, string>

    constructor (initial: map<string, string>)
      ensures files == initial
    {
      files := initial;
    }
  }

  /** `output_file`: truncate `fileName.txt`, then write each name and a newline. */
  method OutputFile(fs: FileSystem, content: seq<BucketName>, fileName: string)
    modifies fs
    ensures fs.files == old(fs.files)[fileName + ".txt" := Encode(content)]
  {
    var path := fileName + ".txt";
    fs.files := fs.files[path := ""];
    for i := 0 to |content|
      invariant fs.files == old(fs.files)[path := Encode(content[..i])]
    {
      EncodeSnoc(content[..i], content[i]);
      assert content[..i + 1] == content[..i] + [content[i]];
      fs.files := fs.files[path := fs.files[path] + content[i] + "\n"];
    }
    assert content[..|content|] == content;
  }
}
