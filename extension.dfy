/**
 * `fileName` (extension.ts:55-57): the name of the view a search opens
 * in, made from the search command by replacing every character outside
 * ASCII `[a-zA-Z0-9]` with `_` and keeping the first ten characters.
 */
module Extension {
  /** The characters `/[^a-z0-9]/gi` leaves alone: ASCII letters of either case and digits. */
  predicate IsAsciiAlnum(c: char)
  {
    'a' <= c <= 'z' || 'A' <= c <= 'Z' || '0' <= c <= '9'
  }

  /** What `replace(/[^a-z0-9]/gi, '_')` makes of one character. */
  function SanitizeChar(c: char): char
  {
    if IsAsciiAlnum(c) then c else '_'
  }

  /** `cmd.replace(/[^a-z0-9]/gi, '_')`: every character outside the class becomes `_`. */
  function Sanitize(cmd: string): (r: string)
    ensures |r| == |cmd|
    ensures forall i :: 0 <= i < |cmd| ==> r[i] == SanitizeChar(cmd[i])
  {
    if cmd == [] then []
    else Sanitize(cmd[..|cmd| - 1]) + [SanitizeChar(cmd[|cmd| - 1])]
  }

  /** The longest name `substring(0, 10)` keeps. */
  const MaxNameLength: nat := 10

  function Min(a: nat, b: nat): nat
  {
    if a < b then a else b
  }

  /** `fileName(cmd)`. */
  function FileName(cmd: string): (r: string)
    ensures |r| == Min(|cmd|, MaxNameLength)
    ensures forall i :: 0 <= i < |r| ==> r[i] == SanitizeChar(cmd[i])
    ensures forall i :: 0 <= i < |r| ==> IsAsciiAlnum(r[i]) || r[i] == '_'
  {
    var sanitized := Sanitize(cmd);
    if |sanitized| <= MaxNameLength then sanitized else sanitized[..MaxNameLength]
  }

  /** A name is its own name. */
  lemma FileNameIdempotent(cmd: string)
    ensures FileName(FileName(cmd)) == FileName(cmd)
  {
    var name := FileName(cmd);
    forall i | 0 <= i < |name|
      ensures FileName(name)[i] == name[i]
    {
      assert IsAsciiAlnum(name[i]) || name[i] == '_';
    }
  }

  /**
   * Two commands get the same name exactly when they have the same length
   * up to ten and agree, character by character, after sanitising.
   */
  lemma FileNameCollides(a: string, b: string)
    ensures FileName(a) == FileName(b) <==>
              && Min(|a|, MaxNameLength) == Min(|b|, MaxNameLength)
              && forall i :: 0 <= i < Min(|a|, MaxNameLength) ==> SanitizeChar(a[i]) == SanitizeChar(b[i])
  {
    var na, nb := FileName(a), FileName(b);
    if Min(|a|, MaxNameLength) == Min(|b|, MaxNameLength)
       && forall i :: 0 <= i < Min(|a|, MaxNameLength) ==> SanitizeChar(a[i]) == SanitizeChar(b[i])
    {
      assert forall i :: 0 <= i < |na| ==> na[i] == nb[i];
    }
    if na == nb {
      forall i | 0 <= i < Min(|a|, MaxNameLength)
        ensures SanitizeChar(a[i]) == SanitizeChar(b[i])
      {
        assert na[i] == nb[i];
      }
    }
  }

  /** A space and a dash both become `_`, so these two searches share a view. */
  lemma FileNameCollisionExample()
    ensures FileName("a b") == FileName("a-b") == "a_b"
  {
    assert FileName("a b") == "a_b" by {
      assert |FileName("a b")| == 3;
      assert "a b"[1] == ' ';
    }
    assert FileName("a-b") == "a_b" by {
      assert |FileName("a-b")| == 3;
      assert "a-b"[1] == '-';
    }
  }
}
