/** ASCII text primitives shared by the song lookup and the lyrics cleaning:
    the character classes the program relies on, lower-casing, splitting on
    one separator character (str.split(sep)), joining with one separator
    (sep.join) and splitting on runs of whitespace (str.split()). */
module Text {

  /** One of the 32 characters of ASCII punctuation (Python's
      string.punctuation): !"#$%&'()*+,-./ :;<=>?@ [\]^_` {|}~ */
  predicate IsPunctuation(c: char) {
    ('!' <= c <= '/') || (':' <= c <= '@') || ('[' <= c <= '`') || ('{' <= c <= '~')
  }

  /** An ASCII character that whitespace splitting treats as a separator:
      tab, line feed, vertical tab, form feed, carriage return, the four
      information separators 0x1C-0x1F, and space. */
  predicate IsSpace(c: char) {
    (9 <= c as int <= 13) || (28 <= c as int <= 32)
  }

  predicate IsUpper(c: char) {
    'A' <= c <= 'Z'
  }

  predicate NoSpace(s: string) {
    forall i :: 0 <= i < |s| ==> !IsSpace(s[i])
  }

  predicate NoPunctuation(s: string) {
    forall i :: 0 <= i < |s| ==> !IsPunctuation(s[i])
  }

  predicate NoUpper(s: string) {
    forall i :: 0 <= i < |s| ==> !IsUpper(s[i])
  }

  /** A token of whitespace splitting: non-empty and free of whitespace. */
  predicate IsWord(w: string) {
    |w| > 0 && NoSpace(w)
  }

  /** No leading, no trailing and no doubled space. */
  predicate WellSpaced(s: string) {
    && (|s| > 0 ==> s[0] != ' ' && s[|s| - 1] != ' ')
    && forall i :: 0 <= i < |s| - 1 ==> !(s[i] == ' ' && s[i + 1] == ' ')
  }

  /** `p` occurs in `s` as a contiguous substring (Python's `p in s`). */
  predicate Contains(s: string, p: string) {
    exists i :: 0 <= i <= |s| && p <= s[i..]
  }

  /** ASCII lower-casing of one character; every other character is kept. */
  function LowerChar(c: char): (d: char)
    ensures !IsUpper(d)
    ensures IsSpace(d) == IsSpace(c) && IsPunctuation(d) == IsPunctuation(c)
    ensures !IsUpper(c) ==> d == c
    ensures IsUpper(c) ==> d as int - 'a' as int == c as int - 'A' as int
  {
    if IsUpper(c) then (c as int + 32) as char else c
  }

  /** str.lower() restricted to ASCII. */
  function Lower(s: string): (r: string)
    ensures |r| == |s| && NoUpper(r)
    ensures forall i :: 0 <= i < |s| ==> r[i] == LowerChar(s[i])
    ensures NoSpace(r) == NoSpace(s)
    ensures NoPunctuation(s) ==> NoPunctuation(r)
  {
    var r := seq(|s|, i requires 0 <= i < |s| => LowerChar(s[i]));
    assert NoSpace(r) ==> NoSpace(s) by {
      if NoSpace(r) {
        forall i | 0 <= i < |s| ensures !IsSpace(s[i]) {
          assert IsSpace(r[i]) == IsSpace(s[i]);
        }
      }
    }
    r
  }

  /** sep.join(parts) */
  function Join(parts: seq<string>, sep: char): string
  {
    if |parts| == 0 then ""
    else if |parts| == 1 then parts[0]
    else parts[0] + [sep] + Join(parts[1..], sep)
  }

  /** s.split(sep) for a one-character separator: the fields between
      separators, empty fields included, so the result is never empty. */
  function Split(s: string, sep: char): (fields: seq<string>)
    ensures |fields| >= 1
    ensures forall k :: 0 <= k < |fields| ==> sep !in fields[k]
  {
    SplitFrom(s, sep, "")
  }

  /** Splitting with `field` already read from the current field. */
  function SplitFrom(s: string, sep: char, field: string): (fields: seq<string>)
    requires sep !in field
    ensures |fields| >= 1
    ensures forall k :: 0 <= k < |fields| ==> sep !in fields[k]
    decreases |s|
  {
    if |s| == 0 then [field]
    else if s[0] == sep then [field] + SplitFrom(s[1..], sep, "")
    else SplitFrom(s[1..], sep, field + [s[0]])
  }

  /** s.split() with no argument: the maximal runs of non-whitespace, in order. */
  function Words(s: string): (words: seq<string>)
    ensures forall k :: 0 <= k < |words| ==> IsWord(words[k])
  {
    WordsFrom(s, "")
  }

  /** Whitespace splitting with `word` already read from the current token. */
  function WordsFrom(s: string, word: string): (words: seq<string>)
    requires NoSpace(word)
    ensures forall k :: 0 <= k < |words| ==> IsWord(words[k])
    decreases |s|
  {
    if |s| == 0 then (if |word| == 0 then [] else [word])
    else if IsSpace(s[0]) then (if |word| == 0 then [] else [word]) + WordsFrom(s[1..], "")
    else WordsFrom(s[1..], word + [s[0]])
  }

  lemma {:induction false} SplitFromPrefix(w: string, rest: string, sep: char, field: string)
    requires sep !in field && sep !in w
    ensures SplitFrom(w + rest, sep, field) == SplitFrom(rest, sep, field + w)
    decreases |w|
  {
    if |w| == 0 {
      assert w + rest == rest;
      assert field + w == field;
    } else {
      assert (w + rest)[0] == w[0];
      assert (w + rest)[1..] == w[1..] + rest;
      SplitFromPrefix(w[1..], rest, sep, field + [w[0]]);
      assert field + [w[0]] + w[1..] == field + w;
    }
  }

  /** Splitting a join gives the parts back, when no part holds the separator. */
  lemma {:induction false} SplitJoin(parts: seq<string>, sep: char)
    requires |parts| >= 1
    requires forall k :: 0 <= k < |parts| ==> sep !in parts[k]
    ensures Split(Join(parts, sep), sep) == parts
    decreases |parts|
  {
    if |parts| == 1 {
      SplitFromPrefix(parts[0], "", sep, "");
      assert parts[0] + "" == parts[0];
      assert "" + parts[0] == parts[0];
    } else {
      var rest := Join(parts[1..], sep);
      assert Join(parts, sep) == parts[0] + ([sep] + rest);
      SplitFromPrefix(parts[0], [sep] + rest, sep, "");
      assert "" + parts[0] == parts[0];
      assert ([sep] + rest)[1..] == rest;
      SplitJoin(parts[1..], sep);
      assert parts == [parts[0]] + parts[1..];
    }
  }

  lemma {:induction false} JoinSplitFrom(s: string, sep: char, field: string)
    requires sep !in field
    ensures Join(SplitFrom(s, sep, field), sep) == field + s
    decreases |s|
  {
    if |s| == 0 {
      assert field + s == field;
    } else if s[0] == sep {
      var tail := SplitFrom(s[1..], sep, "");
      var parts := [field] + tail;
      assert parts == SplitFrom(s, sep, field);
      assert |parts| >= 2 && parts[0] == field && parts[1..] == tail;
      assert Join(parts, sep) == field + [sep] + Join(tail, sep);
      JoinSplitFrom(s[1..], sep, "");
      assert "" + s[1..] == s[1..];
      assert field + [sep] + s[1..] == field + s;
    } else {
      JoinSplitFrom(s[1..], sep, field + [s[0]]);
      assert s == [s[0]] + s[1..];
      assert field + [s[0]] + s[1..] == field + s;
    }
  }

  /** Joining the fields of a split gives the string back. */
  lemma {:induction false} JoinSplit(s: string, sep: char)
    ensures Join(Split(s, sep), sep) == s
  {
    JoinSplitFrom(s, sep, "");
    assert "" + s == s;
  }

  lemma {:induction false} WordsFromPrefix(w: string, rest: string, word: string)
    requires NoSpace(word) && NoSpace(w)
    ensures WordsFrom(w + rest, word) == WordsFrom(rest, word + w)
    decreases |w|
  {
    if |w| == 0 {
      assert w + rest == rest;
      assert word + w == word;
    } else {
      assert (w + rest)[0] == w[0];
      assert (w + rest)[1..] == w[1..] + rest;
      WordsFromPrefix(w[1..], rest, word + [w[0]]);
      assert word + [w[0]] + w[1..] == word + w;
    }
  }

  /** Whitespace splitting of words joined by single spaces gives the words back. */
  lemma {:induction false} WordsJoin(words: seq<string>)
    requires forall k :: 0 <= k < |words| ==> IsWord(words[k])
    ensures Words(Join(words, ' ')) == words
    decreases |words|
  {
    if |words| == 1 {
      WordsFromPrefix(words[0], "", "");
      assert words[0] + "" == words[0];
      assert "" + words[0] == words[0];
    } else if |words| > 1 {
      var rest := Join(words[1..], ' ');
      assert Join(words, ' ') == words[0] + ([' '] + rest);
      WordsFromPrefix(words[0], [' '] + rest, "");
      assert "" + words[0] == words[0];
      assert ([' '] + rest)[1..] == rest;
      WordsJoin(words[1..]);
      assert words == [words[0]] + words[1..];
    }
  }

  lemma {:induction false} WordsFromSpace(a: string, c: char, b: string, word: string)
    requires NoSpace(word) && IsSpace(c)
    ensures WordsFrom(a + [c] + b, word) == WordsFrom(a, word) + WordsFrom(b, "")
    decreases |a|
  {
    var s := a + [c] + b;
    if |a| == 0 {
      assert s == [c] + b;
      assert s[1..] == b;
    } else {
      assert s[0] == a[0];
      assert s[1..] == a[1..] + [c] + b;
      if IsSpace(a[0]) {
        WordsFromSpace(a[1..], c, b, "");
        var head := if |word| == 0 then [] else [word];
        assert head + (WordsFrom(a[1..], "") + WordsFrom(b, "")) == (head + WordsFrom(a[1..], "")) + WordsFrom(b, "");
      } else {
        WordsFromSpace(a[1..], c, b, word + [a[0]]);
      }
    }
  }

  /** A whitespace character separates tokens: the tokens of the text
      around it are those of the part before it followed by those of the
      part after it. */
  lemma {:induction false} WordsSplitAtSpace(a: string, c: char, b: string)
    requires IsSpace(c)
    ensures Words(a + [c] + b) == Words(a) + Words(b)
  {
    WordsFromSpace(a, c, b, "");
  }

  /** A run of non-whitespace is a single token. */
  lemma {:induction false} WordsOfWord(w: string)
    requires IsWord(w)
    ensures Words(w) == [w]
  {
    WordsFromPrefix(w, "", "");
    assert w + "" == w;
    assert "" + w == w;
  }

  lemma {:induction false} WordsFromEmpty(s: string, word: string)
    requires NoSpace(word)
    ensures WordsFrom(s, word) == [] <==> |word| == 0 && forall i :: 0 <= i < |s| ==> IsSpace(s[i])
    decreases |s|
  {
    if |s| > 0 {
      if IsSpace(s[0]) {
        WordsFromEmpty(s[1..], "");
        assert forall i :: 0 < i < |s| ==> s[i] == s[1..][i - 1];
      } else {
        WordsFromEmpty(s[1..], word + [s[0]]);
      }
    }
  }

  /** Whitespace splitting finds no token exactly when the text is all whitespace. */
  lemma {:induction false} WordsEmpty(s: string)
    ensures Words(s) == [] <==> forall i :: 0 <= i < |s| ==> IsSpace(s[i])
  {
    WordsFromEmpty(s, "");
  }

  lemma {:induction false} WordsFromNoPunctuation(s: string, word: string)
    requires NoSpace(word) && NoPunctuation(word) && NoPunctuation(s)
    ensures forall k :: 0 <= k < |WordsFrom(s, word)| ==> NoPunctuation(WordsFrom(s, word)[k])
    decreases |s|
  {
    if |s| > 0 {
      assert NoPunctuation(s[1..]) by {
        forall i | 0 <= i < |s[1..]| ensures !IsPunctuation(s[1..][i]) {
          assert s[1..][i] == s[i + 1];
        }
      }
      if IsSpace(s[0]) {
        WordsFromNoPunctuation(s[1..], "");
      } else {
        WordsFromNoPunctuation(s[1..], word + [s[0]]);
      }
    }
  }

  /** Whitespace splitting introduces no character: tokens of text without
      punctuation carry no punctuation. */
  lemma {:induction false} WordsNoPunctuation(s: string)
    requires NoPunctuation(s)
    ensures forall k :: 0 <= k < |Words(s)| ==> NoPunctuation(Words(s)[k])
  {
    WordsFromNoPunctuation(s, "");
  }

  /** Joining tokens with single spaces leaves no leading, trailing or doubled
      space, and the first character is that of the first token. */
  lemma {:induction false} JoinWellSpaced(words: seq<string>)
    requires forall k :: 0 <= k < |words| ==> IsWord(words[k])
    ensures WellSpaced(Join(words, ' '))
    ensures |words| > 0 ==> |Join(words, ' ')| > 0 && Join(words, ' ')[0] == words[0][0]
    decreases |words|
  {
    if |words| == 1 {
      assert !IsSpace(words[0][0]) && !IsSpace(words[0][|words[0]| - 1]);
    } else if |words| > 1 {
      var w := words[0];
      var rest := Join(words[1..], ' ');
      JoinWellSpaced(words[1..]);
      var s := Join(words, ' ');
      assert s == w + [' '] + rest;
      assert !IsSpace(w[0]) && !IsSpace(w[|w| - 1]);
      assert s[0] == w[0];
      assert s[|s| - 1] == rest[|rest| - 1];
      forall i | 0 <= i < |s| - 1 ensures !(s[i] == ' ' && s[i + 1] == ' ') {
        if i < |w| {
          assert s[i] == w[i];
        } else if i == |w| {
          assert s[i + 1] == rest[0] == words[1][0];
          assert !IsSpace(words[1][0]);
        } else {
          assert s[i] == rest[i - |w| - 1];
          assert s[i + 1] == rest[i - |w|];
        }
      }
    }
  }

  /** Every character of a join is the separator or a character of some part. */
  lemma {:induction false} JoinChars(parts: seq<string>, sep: char, c: char)
    requires c in Join(parts, sep)
    ensures c == sep || exists k :: 0 <= k < |parts| && c in parts[k]
    decreases |parts|
  {
    if |parts| > 1 {
      var rest := Join(parts[1..], sep);
      assert Join(parts, sep) == parts[0] + [sep] + rest;
      if c in rest {
        JoinChars(parts[1..], sep, c);
        if c != sep {
          var k :| 0 <= k < |parts[1..]| && c in parts[1..][k];
          assert c in parts[k + 1];
        }
      }
    }
  }
}
