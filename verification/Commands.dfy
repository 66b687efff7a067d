/** The client's command language: `sscanf` into at most four words, then a chain of comparisons. */
module Commands {
  predicate IsSpace(c: char) {
    c == ' ' || '\t' <= c <= '\r'
  }

  predicate IsWord(w: string) {
    w != [] && forall i :: 0 <= i < |w| ==> !IsSpace(w[i])
  }

  predicate IsGap(g: string) {
    forall i :: 0 <= i < |g| ==> IsSpace(g[i])
  }

  /** The text `sscanf` sees: the zero-filled buffer up to its first zero. */
  function CText(buff: string): string {
    if buff == [] || buff[0] == '\0' then [] else [buff[0]] + CText(buff[1..])
  }

  function FirstWord(s: string): (w: string)
    ensures |w| <= |s|
    ensures s != [] && !IsSpace(s[0]) ==> w != []
  {
    if s == [] || IsSpace(s[0]) then [] else [s[0]] + FirstWord(s[1..])
  }

  function Tokens(s: string): seq<string>
    decreases |s|
  {
    if s == [] then []
    else if IsSpace(s[0]) then Tokens(s[1..])
    else [FirstWord(s)] + Tokens(s[|FirstWord(s)|..])
  }

  /** `sscanf(buff, "%s %s %s %s", ...)`: the first four words, and how many, or -1 for none at all. */
  function Scan(s: string): (int, seq<string>) {
    var t := Tokens(s);
    if t == [] then (-1, []) else if |t| <= 4 then (|t|, t) else (4, t[..4])
  }

  datatype Request = Begin | Commit | Rollback | Get(key: string) | GetForUpdate(key: string)
    | Update(key: string, value: string) | Insert(key: string, value: string) | Delete(key: string)

  datatype Outcome = Send(request: Request) | ShowHash(key: string, size: string) | Usage

  datatype Kind = KBegin | KCommit | KRollback | KGet | KGetForUpdate | KUpdate | KInsert | KDelete | KHash

  /** The seventeen names. */
  function Names(k: Kind): set<string> {
    match k
    case KBegin => {"begin", "b"}
    case KCommit => {"commit", "c"}
    case KRollback => {"rollback", "r"}
    case KGet => {"get", "g"}
    case KGetForUpdate => {"get_for_update", "gf"}
    case KUpdate => {"update", "u"}
    case KInsert => {"insert", "i"}
    case KDelete => {"delete", "d"}
    case KHash => {"hash"}
  }

  /** Words in a command of this kind, its name included. */
  function Arity(k: Kind): nat {
    match k
    case KBegin => 1
    case KCommit => 1
    case KRollback => 1
    case KGet => 2
    case KGetForUpdate => 2
    case KDelete => 2
    case _ => 3
  }

  function Build(k: Kind, words: seq<string>): Outcome
    requires |words| == Arity(k)
  {
    match k
    case KBegin => Send(Begin)
    case KCommit => Send(Commit)
    case KRollback => Send(Rollback)
    case KGet => Send(Get(words[1]))
    case KGetForUpdate => Send(GetForUpdate(words[1]))
    case KUpdate => Send(Update(words[1], words[2]))
    case KInsert => Send(Insert(words[1], words[2]))
    case KDelete => Send(Delete(words[1]))
    case KHash => ShowHash(words[1], words[2])
  }

  predicate Calls(k: Kind, words: seq<string>) {
    words != [] && words[0] in Names(k) && |words| == Arity(k)
  }

  lemma NamesApart(k: Kind, k': Kind, name: string)
    requires name in Names(k) && name in Names(k')
    ensures k == k'
  {
  }

  /** A command line by the table alone: some kind's name with that kind's number of words. */
  ghost function Lookup(words: seq<string>): (o: Outcome)
    ensures forall k :: Calls(k, words) ==> o == Build(k, words)
    ensures (forall k :: !Calls(k, words)) ==> o == Usage
  {
    if k :| Calls(k, words) then
      assert forall k' :: Calls(k', words) ==> k' == k by {
        forall k' | Calls(k', words) ensures k' == k { NamesApart(k, k', words[0]); }
      }
      Build(k, words)
    else Usage
  }

  /** The chain of comparisons finds what the table says, so its order does not matter. */
  method Dispatch(args: seq<string>, n: nat) returns (o: Outcome)
    requires |args| == n && n > 0
    ensures o == Lookup(args)
  {
    ghost var k: Kind := KBegin;
    if (args[0] == "begin" || args[0] == "b") && n == 1 {
      o := Send(Begin);
      k := KBegin;
    } else if (args[0] == "commit" || args[0] == "c") && n == 1 {
      o := Send(Commit);
      k := KCommit;
    } else if (args[0] == "rollback" || args[0] == "r") && n == 1 {
      o := Send(Rollback);
      k := KRollback;
    } else if (args[0] == "get" || args[0] == "g") && n == 2 {
      o := Send(Get(args[1]));
      k := KGet;
    } else if (args[0] == "get_for_update" || args[0] == "gf") && n == 2 {
      o := Send(GetForUpdate(args[1]));
      k := KGetForUpdate;
    } else if (args[0] == "update" || args[0] == "u") && n == 3 {
      o := Send(Update(args[1], args[2]));
      k := KUpdate;
    } else if (args[0] == "insert" || args[0] == "i") && n == 3 {
      o := Send(Insert(args[1], args[2]));
      k := KInsert;
    } else if (args[0] == "delete" || args[0] == "d") && n == 2 {
      o := Send(Delete(args[1]));
      k := KDelete;
    } else if args[0] == "hash" && n == 3 {
      o := ShowHash(args[1], args[2]);
      k := KHash;
    } else {
      o := Usage;
      assert forall k' :: !Calls(k', args);
      return;
    }
    assert Calls(k, args);
  }

  /** Looking at four words only loses nothing: the chunk means what all of its words say. */
  method Parse(buff: string) returns (o: Outcome)
    requires |buff| < 1000 && forall w :: w in Tokens(CText(buff)) ==> |w| < 100
    ensures o == Lookup(Tokens(CText(buff)))
  {
    var (n, args) := Scan(CText(buff));
    ghost var words := Tokens(CText(buff));
    if n <= 0 {
      assert forall k :: !Calls(k, words);
      return Usage;
    }
    o := Dispatch(args, n);
    if |words| > 4 {
      assert forall k :: !Calls(k, words) && !Calls(k, args);
    }
  }

  /** A chunk becomes a request exactly when its first word is a request's name and its word count that request's. */
  lemma RequestExactly(words: seq<string>)
    ensures Lookup(words).Send? <==> exists k :: k != KHash && Calls(k, words)
  {
  }

  // ----- printing a request and reading it back -----

  function Words(r: Request, short: bool): seq<string> {
    match r
    case Begin => [if short then "b" else "begin"]
    case Commit => [if short then "c" else "commit"]
    case Rollback => [if short then "r" else "rollback"]
    case Get(k) => [if short then "g" else "get", k]
    case GetForUpdate(k) => [if short then "gf" else "get_for_update", k]
    case Update(k, v) => [if short then "u" else "update", k, v]
    case Insert(k, v) => [if short then "i" else "insert", k, v]
    case Delete(k) => [if short then "d" else "delete", k]
  }

  /** The words with the gaps before, between and after them. */
  function Line(words: seq<string>, gaps: seq<string>): string
    requires |gaps| == |words| + 1
  {
    if words == [] then gaps[0] else gaps[0] + (words[0] + Line(words[1..], gaps[1..]))
  }

  predicate GoodGaps(words: seq<string>, gaps: seq<string>) {
    && |gaps| == |words| + 1 && (forall i :: 0 <= i < |gaps| ==> IsGap(gaps[i]))
    && forall i :: 0 < i < |words| ==> gaps[i] != []
  }

  lemma {:induction false} SkipGap(g: string, s: string)
    requires IsGap(g)
    ensures Tokens(g + s) == Tokens(s)
  {
    if g == [] {
      assert g + s == s;
    } else {
      assert (g + s)[1..] == g[1..] + s;
      SkipGap(g[1..], s);
    }
  }

  lemma {:induction false} WordStops(w: string, s: string)
    requires (forall i :: 0 <= i < |w| ==> !IsSpace(w[i])) && (s == [] || IsSpace(s[0]))
    ensures FirstWord(w + s) == w
  {
    if w == [] {
      assert w + s == s;
    } else {
      assert (w + s)[1..] == w[1..] + s;
      WordStops(w[1..], s);
    }
  }

  lemma {:induction false} LineTokens(words: seq<string>, gaps: seq<string>)
    requires GoodGaps(words, gaps) && forall i :: 0 <= i < |words| ==> IsWord(words[i])
    ensures Tokens(Line(words, gaps)) == words
  {
    if words == [] {
      SkipGap(gaps[0], "");
      assert gaps[0] + "" == gaps[0];
    } else {
      var rest := Line(words[1..], gaps[1..]);
      LineTokens(words[1..], gaps[1..]);
      SkipGap(gaps[0], words[0] + rest);
      assert rest == [] || IsSpace(rest[0]) by {
        assert IsGap(gaps[1]);
        assert |words| > 1 ==> gaps[1] != [];
      }
      WordStops(words[0], rest);
      assert IsWord(words[0]) && (words[0] + rest)[0] == words[0][0];
      assert (words[0] + rest)[|words[0]|..] == rest;
    }
  }

  lemma {:induction false} CTextWhole(s: string)
    requires '\0' !in s
    ensures CText(s) == s
  {
    if s != [] {
      CTextWhole(s[1..]);
    }
  }

  function KindOf(r: Request): Kind {
    match r
    case Begin => KBegin
    case Commit => KCommit
    case Rollback => KRollback
    case Get(_) => KGet
    case GetForUpdate(_) => KGetForUpdate
    case Update(_, _) => KUpdate
    case Insert(_, _) => KInsert
    case Delete(_) => KDelete
  }

  lemma WordsCall(r: Request, short: bool)
    ensures Calls(KindOf(r), Words(r, short)) && Build(KindOf(r), Words(r, short)) == Send(r)
    ensures IsWord(Words(r, short)[0])
  {
  }

  /** Every request printed with either name and any spacing reads back as itself. */
  lemma CommandRoundTrip(r: Request, short: bool, gaps: seq<string>)
    requires GoodGaps(Words(r, short), gaps) && '\0' !in Line(Words(r, short), gaps)
    requires forall i :: 0 < i < |Words(r, short)| ==> IsWord(Words(r, short)[i])
    ensures Lookup(Tokens(CText(Line(Words(r, short), gaps)))) == Send(r)
  {
    var words := Words(r, short);
    CTextWhole(Line(words, gaps));
    WordsCall(r, short);
    LineTokens(words, gaps);
  }

  // ----- what a chunk says, exactly -----

  /** A chunk is a given request exactly when its words are that request's, under either name. */
  lemma SaysRequestExactly(words: seq<string>, r: Request)
    ensures Lookup(words) == Send(r) <==> words == Words(r, false) || words == Words(r, true)
  {
    WordsCall(r, false);
    WordsCall(r, true);
    if k :| Calls(k, words) {
      assert Lookup(words) == Build(k, words);
      assert words == if |words| == 1 then [words[0]] else if |words| == 2 then [words[0], words[1]]
                      else [words[0], words[1], words[2]];
    }
  }

  lemma SaysHashExactly(words: seq<string>, key: string, size: string)
    ensures Lookup(words) == ShowHash(key, size) <==> words == ["hash", key, size]
  {
    assert Calls(KHash, ["hash", key, size]);
    if k :| Calls(k, words) {
      assert Lookup(words) == Build(k, words);
    }
  }

  lemma {:induction false} CTextExactly(buff: string)
    ensures CText(buff) <= buff && '\0' !in CText(buff)
    ensures |CText(buff)| < |buff| ==> buff[|CText(buff)|] == '\0'
  {
    if buff != [] && buff[0] != '\0' {
      CTextExactly(buff[1..]);
    }
  }

  lemma {:induction false} FirstWordEnds(s: string)
    ensures FirstWord(s) <= s && forall i :: 0 <= i < |FirstWord(s)| ==> !IsSpace(s[i])
    ensures |FirstWord(s)| < |s| ==> IsSpace(s[|FirstWord(s)|])
  {
    if s != [] && !IsSpace(s[0]) {
      FirstWordEnds(s[1..]);
    }
  }

  /** Every text is a line of its words with some gaps: no character is lost, and no word split or joined. */
  lemma {:induction false} EveryTextIsALine(s: string) returns (gaps: seq<string>)
    ensures GoodGaps(Tokens(s), gaps) && Line(Tokens(s), gaps) == s
    ensures forall i :: 0 <= i < |Tokens(s)| ==> IsWord(Tokens(s)[i])
    decreases |s|
  {
    if s == [] {
      gaps := [""];
    } else if IsSpace(s[0]) {
      var rest := EveryTextIsALine(s[1..]);
      gaps := [[s[0]] + rest[0]] + rest[1..];
      assert gaps[1..] == rest[1..] && forall i :: 1 <= i < |gaps| ==> gaps[i] == rest[i];
      assert s == [s[0]] + s[1..];
    } else {
      gaps := WordLine(s);
    }
  }

  lemma {:induction false} WordLine(s: string) returns (gaps: seq<string>)
    requires s != [] && !IsSpace(s[0])
    ensures GoodGaps(Tokens(s), gaps) && Line(Tokens(s), gaps) == s
    ensures forall i :: 0 <= i < |Tokens(s)| ==> IsWord(Tokens(s)[i])
    decreases |s|, 0
  {
    var w := FirstWord(s);
    var after := s[|w|..];
    FirstWordEnds(s);
    var rest := EveryTextIsALine(after);
    gaps := [""] + rest;
    var words := Tokens(after);
    assert Tokens(s) == [w] + words && ([w] + words)[1..] == words && gaps[1..] == rest;
    if words != [] {
      assert IsWord(words[0]) && Line(words, rest) == rest[0] + (words[0] + Line(words[1..], rest[1..]));
      assert rest[0] != [];
    }
    forall i | 0 < i < |Tokens(s)| ensures gaps[i] != [] {
      assert gaps[i] == rest[i - 1];
    }
    forall i | 0 <= i < |Tokens(s)| ensures IsWord(Tokens(s)[i]) {
      assert i > 0 ==> Tokens(s)[i] == words[i - 1];
    }
    assert s == w + after;
  }
}
