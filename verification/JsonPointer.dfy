/** JSON Pointers of validation errors, read back by the rules of RFC 6901. */
module JsonPointer {
  import opened Wrappers
  import opened Sequences
  import opened Text

  /** `s.replace(c, text)` for one character. */
  function Replace(s: string, c: char, text: string): string {
    if s == "" then "" else (if s[0] == c then text else [s[0]]) + Replace(s[1..], c, text)
  }

  function Escape(part: string): string {
    Replace(Replace(part, '~', "~0"), '/', "~1")
  }

  /** `_json_pointer`, for a path whose entries are already text. */
  function Pointer(path: seq<string>): string {
    "/" + Join("/", Map(Escape, path))
  }

  // ---------- the standard's reader ----------

  /** Replaces each occurrence of the two characters `~`, `b`, from the left. */
  function Restore(s: string, b: char, after: char): string {
    if s == "" then ""
    else if |s| >= 2 && s[0] == '~' && s[1] == b then [after] + Restore(s[2..], b, after)
    else [s[0]] + Restore(s[1..], b, after)
  }

  /** Section 4 of RFC 6901: first `~1` to `/`, then `~0` to `~`. */
  function Unescape(token: string): string {
    Restore(Restore(token, '1', '/'), '0', '~')
  }

  /** Section 3 of RFC 6901: empty, or tokens that each follow a slash. */
  function Decode(pointer: string): Option<seq<string>> {
    if pointer == "" then Some([])
    else if pointer[0] != '/' then None
    else Some(Map(Unescape, Split('/', pointer[1..])))
  }

  // ---------- round trip ----------

  predicate TildesEscaped(s: string) {
    forall i | 0 <= i < |s| && s[i] == '~' :: i + 1 < |s| && s[i + 1] == '0'
  }

  lemma {:induction false} TildesAfterReplace(s: string)
    ensures TildesEscaped(Replace(s, '~', "~0"))
  {
    if s != "" {
      TildesAfterReplace(s[1..]);
    }
  }

  lemma {:induction false} SlashesRestored(s: string)
    requires TildesEscaped(s)
    ensures Restore(Replace(s, '/', "~1"), '1', '/') == s
    ensures '/' !in Replace(s, '/', "~1")
  {
    if s != "" {
      var rest := Replace(s[1..], '/', "~1");
      SlashesRestored(s[1..]);
      assert s == [s[0]] + s[1..];
      var whole := Replace(s, '/', "~1");
      if s[0] == '/' {
        assert whole == "~1" + rest;
        assert whole[2..] == rest;
      } else {
        assert whole == [s[0]] + rest;
        assert whole[1..] == rest;
        if s[0] == '~' {
          assert s[1] == '0';
          assert rest[0] == '0';
        }
      }
    }
  }

  lemma {:induction false} TildesRestored(s: string)
    ensures Restore(Replace(s, '~', "~0"), '0', '~') == s
  {
    if s != "" {
      var rest := Replace(s[1..], '~', "~0");
      TildesRestored(s[1..]);
      assert s == [s[0]] + s[1..];
      var whole := Replace(s, '~', "~0");
      if s[0] == '~' {
        assert whole == "~0" + rest;
        assert whole[2..] == rest;
      } else {
        assert whole == [s[0]] + rest;
        assert whole[1..] == rest;
      }
    }
  }

  lemma {:induction false} TokenRoundTrip(part: string)
    ensures Unescape(Escape(part)) == part && '/' !in Escape(part)
  {
    TildesAfterReplace(part);
    SlashesRestored(Replace(part, '~', "~0"));
    TildesRestored(part);
  }

  lemma {:induction false} EmptyPathReads()
    ensures Decode(Pointer([])) == Some([""])
  {
    assert Pointer([]) == "/";
    assert Map(Unescape, [""]) == [""];
  }

  /** A path is read back from its pointer exactly when it is not empty. */
  lemma {:induction false} PointerRoundTrip(path: seq<string>)
    ensures Decode(Pointer(path)) == Some(path) <==> path != []
  {
    if path == [] {
      EmptyPathReads();
    } else {
      var tokens := Map(Escape, path);
      forall t | t in tokens ensures '/' !in t {
        var i :| 0 <= i < |tokens| && tokens[i] == t;
        TokenRoundTrip(path[i]);
      }
      SplitJoin('/', tokens);
      assert Pointer(path)[1..] == Join("/", tokens);
      forall i | 0 <= i < |path| ensures Unescape(tokens[i]) == path[i] {
        TokenRoundTrip(path[i]);
      }
      assert Map(Unescape, tokens) == path;
    }
  }

  /** What a pointer denotes: the path itself, the empty path being read as one empty token. */
  function Denoted(path: seq<string>): seq<string> {
    if path == [] then [""] else path
  }

  /** Two paths have the same pointer exactly when they are equal, or are the empty path and the empty token. */
  lemma {:induction false} PointerCollisions(p: seq<string>, q: seq<string>)
    ensures Pointer(p) == Pointer(q) <==> Denoted(p) == Denoted(q)
  {
    PointerRoundTrip(p);
    PointerRoundTrip(q);
    EmptyPathReads();
    assert Pointer([""]) == "/" && Pointer([]) == "/";
  }
}
