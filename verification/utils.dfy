/**
 * Upload and log validators (utils.py): the exact-name file whitelist, the
 * inclusive 1 MiB size bound, and HTML escaping of log lines, which is
 * Python's `html.escape(text)` (`quote=True`).
 */
module Utils {
  import opened Text

  const AllowedFiles: set<string> := {"requirements.txt", "bot.py"}

  /** `MAX_FILE_SIZE = 1 * 1024 * 1024`. */
  const MaxFileSize: nat := 1048576

  /** `validate_file_extension`: membership of the whole name in the whitelist. */
  function ValidateFileExtension(filename: string): (ok: bool)
    ensures ok <==> filename == "requirements.txt" || filename == "bot.py"
  {
    filename in AllowedFiles
  }

  /** Case, directories and surrounding text all make a name fail. */
  lemma ExtensionCheckIsWholeName()
    ensures ValidateFileExtension("bot.py") && ValidateFileExtension("requirements.txt")
    ensures !ValidateFileExtension("BOT.py") && !ValidateFileExtension("x/bot.py")
    ensures !ValidateFileExtension("bot.py ") && !ValidateFileExtension("main.py")
  {
    assert "BOT.py"[0] != "bot.py"[0];
    assert "x/bot.py"[0] != "bot.py"[0];
    assert |"bot.py "| != |"bot.py"|;
    assert "main.py"[0] != "bot.py"[0];
  }

  /** The upload stream as `validate_file_size` sees it: its length and read position. */
  datatype UploadFile = UploadFile(size: nat, position: nat)

  datatype SizeCheck = SizeCheck(ok: bool, file: UploadFile)

  /**
   * `validate_file_size`: seek to the end to read the size, seek back to 0,
   * accept at most 1 MiB. The stream is left rewound whatever the verdict.
   */
  function ValidateFileSize(f: UploadFile): (c: SizeCheck)
    ensures c.ok <==> f.size <= MaxFileSize
    ensures c.file.position == 0 && c.file.size == f.size
  {
    var atEnd := f.(position := f.size);
    var size := atEnd.position;
    SizeCheck(size <= MaxFileSize, atEnd.(position := 0))
  }

  /** Exactly 1 MiB passes, one byte more does not. */
  lemma SizeBoundaryInclusive(position: nat)
    ensures ValidateFileSize(UploadFile(1048576, position)).ok
    ensures !ValidateFileSize(UploadFile(1048577, position)).ok
  {
  }

  /** `escape_log_output`: `html.escape`, which replaces `&` first, then `< > " '`. */
  function EscapeLogOutput(s: string): string {
    Replace(Replace(Replace(Replace(Replace(s, '&', "&amp;"), '<', "&lt;"), '>', "&gt;"), '"', "&quot;"), '\'', "&#x27;")
  }

  predicate IsSpecial(c: char) {
    c == '&' || c == '<' || c == '>' || c == '"' || c == '\''
  }

  /** The entity `html.escape` writes for one character. */
  function EscapeChar(c: char): (r: string)
    ensures |r| >= 1
    ensures !IsSpecial(c) ==> r == [c]
    ensures IsSpecial(c) ==> r[0] == '&'
  {
    match c
    case '&' => "&amp;"
    case '<' => "&lt;"
    case '>' => "&gt;"
    case '"' => "&quot;"
    case '\'' => "&#x27;"
    case _ => [c]
  }

  /** Escaping read as a per-character map: the reference for `EscapeLogOutput`. */
  function EscapeMap(s: string): (r: string)
    ensures |r| >= |s|
    ensures forall i :: 0 <= i < |r| ==> r[i] != '<' && r[i] != '>' && r[i] != '"' && r[i] != '\''
    decreases |s|
  {
    if s == [] then [] else EscapeChar(s[0]) + EscapeMap(s[1..])
  }

  lemma EscapeLogOutputAppend(a: string, b: string)
    ensures EscapeLogOutput(a + b) == EscapeLogOutput(a) + EscapeLogOutput(b)
  {
    var a1, b1 := Replace(a, '&', "&amp;"), Replace(b, '&', "&amp;");
    ReplaceAppend(a, b, '&', "&amp;");
    var a2, b2 := Replace(a1, '<', "&lt;"), Replace(b1, '<', "&lt;");
    ReplaceAppend(a1, b1, '<', "&lt;");
    var a3, b3 := Replace(a2, '>', "&gt;"), Replace(b2, '>', "&gt;");
    ReplaceAppend(a2, b2, '>', "&gt;");
    var a4, b4 := Replace(a3, '"', "&quot;"), Replace(b3, '"', "&quot;");
    ReplaceAppend(a3, b3, '"', "&quot;");
    ReplaceAppend(a4, b4, '\'', "&#x27;");
  }

  lemma ReplaceSingle(c: char, d: char, t: string)
    ensures Replace([c], d, t) == if c == d then t else [c]
  {
    assert [c][1..] == [];
  }

  /** Escaping a string that no longer holds any of the remaining four specials. */
  lemma EscapeTail(s1: string)
    requires '<' !in s1 && '>' !in s1 && '"' !in s1 && '\'' !in s1
    ensures Replace(Replace(Replace(Replace(s1, '<', "&lt;"), '>', "&gt;"), '"', "&quot;"), '\'', "&#x27;") == s1
  {
  }

  lemma EscapeAmp()
    ensures EscapeLogOutput("&") == "&amp;"
  {
    ReplaceSingle('&', '&', "&amp;");
    EscapeTail("&amp;");
  }

  lemma EscapeLt()
    ensures EscapeLogOutput("<") == "&lt;"
  {
    ReplaceSingle('<', '&', "&amp;");
    ReplaceSingle('<', '<', "&lt;");
  }

  lemma EscapeGt()
    ensures EscapeLogOutput(">") == "&gt;"
  {
    ReplaceSingle('>', '&', "&amp;");
    ReplaceSingle('>', '<', "&lt;");
    ReplaceSingle('>', '>', "&gt;");
  }

  lemma EscapeQuot()
    ensures EscapeLogOutput("\"") == "&quot;"
  {
    ReplaceSingle('"', '&', "&amp;");
    ReplaceSingle('"', '<', "&lt;");
    ReplaceSingle('"', '>', "&gt;");
    ReplaceSingle('"', '"', "&quot;");
  }

  lemma EscapeApos()
    ensures EscapeLogOutput("'") == "&#x27;"
  {
    ReplaceSingle('\'', '&', "&amp;");
    ReplaceSingle('\'', '<', "&lt;");
    ReplaceSingle('\'', '>', "&gt;");
    ReplaceSingle('\'', '"', "&quot;");
    ReplaceSingle('\'', '\'', "&#x27;");
  }

  lemma EscapeLogOutputChar(c: char)
    ensures EscapeLogOutput([c]) == EscapeChar(c)
  {
    if c == '&' {
      EscapeAmp();
    } else if c == '<' {
      EscapeLt();
    } else if c == '>' {
      EscapeGt();
    } else if c == '"' {
      EscapeQuot();
    } else if c == '\'' {
      EscapeApos();
    }
  }

  /**
   * The five successive replacements escape each character on its own: because
   * `&` goes first, no entity written later is escaped again.
   */
  lemma {:induction false} EscapeIsPerCharacter(s: string)
    ensures EscapeLogOutput(s) == EscapeMap(s)
    decreases |s|
  {
    if s == [] {
    } else {
      assert s == [s[0]] + s[1..];
      EscapeLogOutputAppend([s[0]], s[1..]);
      EscapeLogOutputChar(s[0]);
      EscapeIsPerCharacter(s[1..]);
    }
  }

  /** Text without the five special characters is logged as is. */
  lemma EscapePlainText(s: string)
    requires forall i :: 0 <= i < |s| ==> !IsSpecial(s[i])
    ensures EscapeLogOutput(s) == s
  {
  }

  predicate StartsWith(s: string, prefix: string) {
    |prefix| <= |s| && s[..|prefix|] == prefix
  }

  /** `s` begins with one of the five entities `html.escape` writes. */
  predicate StartsEntity(s: string) {
    StartsWith(s, "&amp;") || StartsWith(s, "&lt;") || StartsWith(s, "&gt;")
    || StartsWith(s, "&quot;") || StartsWith(s, "&#x27;")
  }

  /** Every `&` in escaped text opens an entity. */
  lemma {:induction false} AmpersandsOpenEntities(s: string)
    ensures forall i :: 0 <= i < |EscapeLogOutput(s)| && EscapeLogOutput(s)[i] == '&'
              ==> StartsEntity(EscapeLogOutput(s)[i..])
  {
    EscapeIsPerCharacter(s);
    EscapeMapAmpersands(s);
  }

  lemma {:induction false} EscapeMapAmpersands(s: string)
    ensures forall i :: 0 <= i < |EscapeMap(s)| && EscapeMap(s)[i] == '&' ==> StartsEntity(EscapeMap(s)[i..])
    decreases |s|
  {
    if s != [] {
      EscapeMapAmpersands(s[1..]);
      var head := EscapeChar(s[0]);
      var tail := EscapeMap(s[1..]);
      var r := EscapeMap(s);
      assert r == head + tail;
      forall i | 0 <= i < |r| && r[i] == '&'
        ensures StartsEntity(r[i..])
      {
        if i < |head| {
          assert i == 0;
          assert r[..|head|] == head;
        } else {
          assert r[i..] == tail[i - |head|..];
        }
      }
    }
  }

  /** Decodes the five entities (and only those) back to their characters. */
  function Unescape(s: string): string
    decreases |s|
  {
    if s == [] then []
    else if StartsWith(s, "&amp;") then "&" + Unescape(s[5..])
    else if StartsWith(s, "&lt;") then "<" + Unescape(s[4..])
    else if StartsWith(s, "&gt;") then ">" + Unescape(s[4..])
    else if StartsWith(s, "&quot;") then "\"" + Unescape(s[6..])
    else if StartsWith(s, "&#x27;") then "'" + Unescape(s[6..])
    else [s[0]] + Unescape(s[1..])
  }

  lemma UnescapeHead(c: char, tail: string)
    ensures Unescape(EscapeChar(c) + tail) == [c] + Unescape(tail)
  {
    if IsSpecial(c) {
      UnescapeHeadSpecial(c, tail);
    } else {
      UnescapeHeadPlain(c, tail);
    }
  }

  lemma UnescapeHeadPlain(c: char, tail: string)
    requires !IsSpecial(c)
    ensures Unescape(EscapeChar(c) + tail) == [c] + Unescape(tail)
  {
    var r := EscapeChar(c) + tail;
    assert r[0] == c && r[1..] == tail;
    assert !StartsEntity(r) by {
      if |r| >= 1 && r[0] == '&' { assert false; }
    }
  }

  lemma UnescapeHeadSpecial(c: char, tail: string)
    requires IsSpecial(c)
    ensures Unescape(EscapeChar(c) + tail) == [c] + Unescape(tail)
  {
    var r := EscapeChar(c) + tail;
    var e := EscapeChar(c);
    assert r[..|e|] == e && r[|e|..] == tail;
    if c == '&' {
      assert StartsWith(r, "&amp;");
    } else if c == '<' {
      assert r[1] == 'l';
      assert StartsWith(r, "&lt;");
    } else if c == '>' {
      assert r[1] == 'g';
      assert StartsWith(r, "&gt;");
    } else if c == '"' {
      assert r[1] == 'q';
      assert StartsWith(r, "&quot;");
    } else {
      assert r[1] == '#';
      assert StartsWith(r, "&#x27;");
    }
  }

  /** Escaping loses nothing: the original line can be read back. */
  lemma {:induction false} UnescapeEscape(s: string)
    ensures Unescape(EscapeLogOutput(s)) == s
    decreases |s|
  {
    EscapeIsPerCharacter(s);
    if s != [] {
      EscapeIsPerCharacter(s[1..]);
      UnescapeEscape(s[1..]);
      UnescapeHead(s[0], EscapeMap(s[1..]));
      assert s == [s[0]] + s[1..];
    }
  }

  /** Escaping is not idempotent: an already escaped `&` is escaped again. */
  lemma EscapeNotIdempotent()
    ensures EscapeLogOutput(EscapeLogOutput("&")) != EscapeLogOutput("&")
  {
    EscapeAmp();
    assert "&amp;" == "&" + "amp;";
    EscapeLogOutputAppend("&", "amp;");
    assert |EscapeLogOutput("amp;")| >= 4;
  }
}
