/** The avatar initials of a user: `nombre.split(' ').map(n => n[0]).join('')`. */
module Names {

  /** `s.split(' ')`: the pieces between spaces, keeping the empty ones, so there is always
      at least one piece and one more piece than there are spaces. */
  function Split(s: string): (r: seq<string>)
    ensures |r| >= 1
    ensures forall i :: 0 <= i < |r| ==> ' ' !in r[i]
    decreases |s|
  {
    if |s| == 0 then [""]
    else
      var rest := Split(s[1..]);
      if s[0] == ' ' then [""] + rest
      else [[s[0]] + rest[0]] + rest[1..]
  }

  /** `segs.join(' ')`. */
  function Join(segs: seq<string>): string
    requires |segs| >= 1
  {
    if |segs| == 1 then segs[0] else segs[0] + " " + Join(segs[1..])
  }

  /** Joining the pieces back with spaces gives the original text. */
  lemma {:induction false} JoinSplit(s: string)
    ensures Join(Split(s)) == s
    decreases |s|
  {
    if |s| != 0 {
      var rest := Split(s[1..]);
      JoinSplit(s[1..]);
      assert s == [s[0]] + s[1..];
      if s[0] != ' ' && |rest| > 1 {
        assert Join(rest) == rest[0] + " " + Join(rest[1..]);
      }
    }
  }

  lemma JoinPeel(segs: seq<string>)
    requires |segs| >= 1 && |segs[0]| > 0
    ensures Join(segs) == [segs[0][0]] + Join([segs[0][1..]] + segs[1..])
  {
    var first := segs[0];
    var shorter := [first[1..]] + segs[1..];
    assert first == [first[0]] + first[1..];
    if |segs| > 1 {
      assert shorter[1..] == segs[1..];
    }
  }

  /** Splitting a join of space-free pieces gives the pieces back. */
  lemma {:induction false} SplitJoin(segs: seq<string>)
    requires |segs| >= 1
    requires forall i :: 0 <= i < |segs| ==> ' ' !in segs[i]
    ensures Split(Join(segs)) == segs
    decreases |segs|, |segs[0]|
  {
    var j := Join(segs);
    if |segs[0]| == 0 {
      if |segs| > 1 {
        assert j == " " + Join(segs[1..]);
        assert j[1..] == Join(segs[1..]);
        SplitJoin(segs[1..]);
        assert Split(j) == [""] + segs[1..];
      }
    } else {
      var first := segs[0];
      var shorter := [first[1..]] + segs[1..];
      assert forall i :: 1 <= i < |shorter| ==> shorter[i] == segs[i];
      SplitJoin(shorter);
      JoinPeel(segs);
      assert j[0] == first[0] && j[1..] == Join(shorter);
      assert Split(j) == [[first[0]] + first[1..]] + segs[1..];
      assert first == [first[0]] + first[1..];
    }
  }

  /** `segs.map(n => n[0]).join('')`: the first character of each piece; an empty piece
      gives `undefined`, which `join` prints as nothing. */
  function FirstLetters(segs: seq<string>): (r: string)
    ensures |r| <= |segs|
  {
    if |segs| == 0 then ""
    else (if |segs[0]| > 0 then [segs[0][0]] else "") + FirstLetters(segs[1..])
  }

  /** The avatar initials: the first character of every space-separated piece of the name,
      which is the same as every character that starts a word. */
  function Iniciales(nombre: string): (r: string)
    ensures r == WordStarts(nombre, true)
  {
    WordStartsSplit(nombre);
    FirstLetters(Split(nombre))
  }

  /** The characters of `s` that start a word: not a space, and first or right after a
      space (`afterSpace` says whether the previous character was a space). */
  function WordStarts(s: string, afterSpace: bool): (r: string)
    ensures forall i :: 0 <= i < |r| ==> r[i] != ' ' && r[i] in s
  {
    if |s| == 0 then ""
    else (if s[0] != ' ' && afterSpace then [s[0]] else "") + WordStarts(s[1..], s[0] == ' ')
  }

  lemma {:induction false} WordStartsSplit(s: string)
    ensures WordStarts(s, true) == FirstLetters(Split(s))
    ensures WordStarts(s, false) == FirstLetters(Split(s)[1..])
    decreases |s|
  {
    if |s| != 0 {
      WordStartsSplit(s[1..]);
      var rest := Split(s[1..]);
      if s[0] == ' ' {
        assert Split(s)[1..] == rest;
      } else {
        assert Split(s)[1..] == rest[1..];
      }
    }
  }

  /** The initials are the word-starting characters of the name, in order: never a space,
      each taken from the name, at most one per space-separated piece. */
  lemma InicialesAreWordStarts(nombre: string)
    ensures Iniciales(nombre) == WordStarts(nombre, true)
    ensures |Iniciales(nombre)| <= |Split(nombre)|
    ensures forall i :: 0 <= i < |Iniciales(nombre)| ==>
      Iniciales(nombre)[i] != ' ' && Iniciales(nombre)[i] in nombre
  {
    WordStartsSplit(nombre);
  }

  /** A name made of non-empty words separated by single spaces gets one initial per word:
      the first character of each word, in order. */
  lemma InicialesOfWords(words: seq<string>)
    requires |words| >= 1
    requires forall i :: 0 <= i < |words| ==> |words[i]| > 0 && ' ' !in words[i]
    ensures |Iniciales(Join(words))| == |words|
    ensures forall i :: 0 <= i < |words| ==> Iniciales(Join(words))[i] == words[i][0]
  {
    SplitJoin(words);
    FirstLettersOfWords(words);
  }

  lemma {:induction false} FirstLettersOfWords(words: seq<string>)
    requires forall i :: 0 <= i < |words| ==> |words[i]| > 0
    ensures |FirstLetters(words)| == |words|
    ensures forall i :: 0 <= i < |words| ==> FirstLetters(words)[i] == words[i][0]
  {
    if |words| != 0 {
      FirstLettersOfWords(words[1..]);
    }
  }
}
