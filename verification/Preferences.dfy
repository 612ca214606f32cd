/** Preferences: a multimap from keys to values, and the text file that stores it. */
module PreferenceStore {
  import opened Sequences

  /** One line of the file. */
  datatype Entry = Entry(key: string, value: string)

  /** The values of each key, in the order they were added. */
  type Prefs = map<string, seq<string>>

  // ---------- strings ----------

  predicate Space(c: char) {
    c == ' ' || c == '\n' || c == '\r' || c == '\t'
  }

  function TrimFront(s: string): (r: string)
    ensures forall c :: c in r ==> c in s
    ensures r == [] || !Space(r[0])
  {
    if s != [] && Space(s[0]) then TrimFront(s[1..]) else s
  }

  function TrimBack(s: string): (r: string)
    ensures r <= s
    ensures r == [] || !Space(r[|r| - 1])
  {
    if s != [] && Space(s[|s| - 1]) then TrimBack(s[..|s| - 1]) else s
  }

  /** Without the white space at both ends. */
  function Trim(s: string): (r: string)
    ensures forall c :: c in r ==> c in s
    ensures Trimmed(r)
  {
    TrimBack(TrimFront(s))
  }

  predicate Trimmed(s: string) {
    s == [] || (!Space(s[0]) && !Space(s[|s| - 1]))
  }

  /** The position of the first `c`, or the length if there is none. */
  function IndexOf(s: string, c: char): (i: nat)
    ensures i <= |s| && (i < |s| ==> s[i] == c) && forall j :: 0 <= j < i ==> s[j] != c
  {
    if s == [] || s[0] == c then 0 else 1 + IndexOf(s[1..], c)
  }

  /** The pieces between the delimiters; there is always one more piece than there are delimiters. */
  function Split(s: string, c: char): (r: seq<string>)
    ensures |r| > 0
    ensures forall k :: 0 <= k < |r| ==> c !in r[k] && forall x :: x in r[k] ==> x in s
    decreases |s|
  {
    var i := IndexOf(s, c);
    if i == |s| then [s]
    else
      var rest := Split(s[i + 1..], c);
      assert forall x :: x in s[i + 1..] ==> x in s;
      [s[..i]] + rest
  }

  /** The lines `getline` finds: a last line without a newline counts if it is not empty. */
  function Lines(text: string): (r: seq<string>)
    ensures forall k :: 0 <= k < |r| ==> '\n' !in r[k]
    decreases |text|
  {
    if text == [] then []
    else
      var i := IndexOf(text, '\n');
      if i == |text| then [text] else [text[..i]] + Lines(text[i + 1..])
  }

  /** The pieces, with a delimiter between each two of them. */
  function Join(pieces: seq<string>, c: char): string
    requires pieces != []
  {
    if |pieces| == 1 then pieces[0] else pieces[0] + [c] + Join(pieces[1..], c)
  }

  /** Pieces that do not hold the delimiter are found again. */
  lemma {:induction false} SplitOfJoin(pieces: seq<string>, c: char)
    requires pieces != [] && forall k :: 0 <= k < |pieces| ==> c !in pieces[k]
    ensures Split(Join(pieces, c), c) == pieces
    decreases |pieces|
  {
    if |pieces| > 1 {
      SplitOfJoin(pieces[1..], c);
      SplitFirst(pieces[0], Join(pieces[1..], c), c);
    } else {
      assert IndexOf(pieces[0], c) == |pieces[0]|;
    }
  }

  lemma SplitFirst(first: string, rest: string, c: char)
    requires c !in first
    ensures Split(first + [c] + rest, c) == [first] + Split(rest, c)
  {
    var s := first + [c] + rest;
    assert s[|first|] == c && forall j :: 0 <= j < |first| ==> s[j] == first[j] && first[j] in first;
    assert IndexOf(s, c) == |first|;
    assert s[..|first|] == first && s[|first| + 1..] == rest;
    hide IndexOf;
  }

  // ---------- the file ----------

  function Line(e: Entry): string {
    e.key + " = " + e.value
  }

  /** The text of the file, a line for each entry. */
  function Print(entries: seq<Entry>): string {
    if entries == [] then "" else Line(entries[0]) + "\n" + Print(entries[1..])
  }

  /** What one line says, if it is not a comment, blank or malformed. */
  function ParseLine(raw: string): Option<Entry> {
    var line := Trim(raw);
    if line == [] || line[0] == '#' then None
    else
      var tokens := Split(line, '=');
      if |tokens| != 2 then None else Some(Entry(Trim(tokens[0]), Trim(tokens[1])))
  }

  function ParseLines(lines: seq<string>): seq<Entry> {
    if lines == [] then []
    else
      var rest := ParseLines(lines[1..]);
      match ParseLine(lines[0])
      case None => rest
      case Some(e) => [e] + rest
  }

  function Parse(text: string): seq<Entry> {
    ParseLines(Lines(text))
  }

  /** An entry the file format can express. */
  predicate Clean(e: Entry) {
    && Trimmed(e.key) && Trimmed(e.value)
    && '=' !in e.key && '=' !in e.value && '\n' !in e.key && '\n' !in e.value
    && (e.key == [] || e.key[0] != '#')
  }

  /** Whatever a line says, it is clean. */
  lemma ParsedIsClean(raw: string)
    requires '\n' !in raw
    ensures ParseLine(raw).Some? ==> Clean(ParseLine(raw).value)
  {
    var line := Trim(raw);
    if line != [] && line[0] != '#' && |Split(line, '=')| == 2 {
      var tokens := Split(line, '=');
      FirstPiece(line, '=');
      TrimKeepsFirst(tokens[0]);
    }
  }

  lemma FirstPiece(s: string, c: char)
    ensures Split(s, c)[0] <= s
  {
  }

  lemma TrimKeepsFirst(s: string)
    requires s != [] ==> !Space(s[0])
    ensures Trim(s) <= s
  {
  }

  // ---------- what a line says, in plain text ----------

  ghost predicate Blank(s: string) {
    forall c :: c in s ==> c in " \n\r\t"
  }

  /** Neither starts nor ends with white space. */
  ghost predicate Tight(s: string) {
    s == "" || (s[0] !in " \n\r\t" && s[|s| - 1] !in " \n\r\t")
  }

  lemma {:induction false} TrimFrontOf(front: string, s: string)
    requires Blank(front) && (s == "" || s[0] !in " \n\r\t")
    ensures TrimFront(front + s) == s
  {
    if front == "" {
      assert front + s == s;
    } else {
      assert (front + s)[0] in front && (front + s)[1..] == front[1..] + s;
      TrimFrontOf(front[1..], s);
    }
  }

  lemma {:induction false} TrimBackOf(s: string, back: string)
    requires Blank(back) && (s == "" || s[|s| - 1] !in " \n\r\t")
    ensures TrimBack(s + back) == s
  {
    if back == "" {
      assert s + back == s;
    } else {
      var t, n := s + back, |back| - 1;
      assert back[n] in back && t[|t| - 1] == back[n] && t[..|t| - 1] == s + back[..n];
      TrimBackOf(s, back[..n]);
    }
  }

  lemma TrimOf(front: string, core: string, back: string)
    requires Blank(front) && Tight(core) && Blank(back)
    ensures Trim(front + core + back) == core
  {
    hide TrimFront;
    hide TrimBack;
    if core == "" {
      assert front + core + back == front + back + "";
      TrimFrontOf(front + back, "");
      TrimBackOf("", "");
      assert "" + "" == "";
    } else {
      assert front + core + back == front + (core + back);
      assert (core + back)[0] == core[0];
      TrimFrontOf(front, core + back);
      TrimBackOf(core, back);
    }
  }

  lemma {:induction false} TrimKeeps(s: string, c: char)
    requires c !in " \n\r\t"
    ensures multiset(Trim(s))[c] == multiset(s)[c]
    decreases |s|
  {
    if s != "" && Space(s[0]) {
      assert s == [s[0]] + s[1..];
      TrimKeeps(s[1..], c);
    } else if s != "" && Space(s[|s| - 1]) {
      var init := s[..|s| - 1];
      assert s == init + [s[|s| - 1]];
      TrimKeeps(init, c);
      assert TrimFront(init) == init;
    }
  }

  lemma {:induction false} PiecesOf(s: string, c: char)
    ensures |Split(s, c)| == multiset(s)[c] + 1
    decreases |s|
  {
    var i := IndexOf(s, c);
    if i < |s| {
      assert s == s[..i] + [c] + s[i + 1..];
      PiecesOf(s[i + 1..], c);
      assert multiset(s[..i])[c] == 0;
    } else {
      assert c !in s;
    }
  }

  /** A line without an equals sign, or with more than one, says nothing. */
  lemma OneEqualsOrNothing(raw: string)
    requires multiset(raw)['='] != 1
    ensures ParseLine(raw) == None
  {
    TrimKeeps(raw, '=');
    PiecesOf(Trim(raw), '=');
  }

  /** A line that starts with a hash, after white space, says nothing. */
  lemma CommentSaysNothing(front: string, rest: string)
    requires Blank(front)
    ensures ParseLine(front + "#" + rest) == None
  {
    hide TrimFront;
    hide TrimBack;
    hide Blank;
    hide Split;
    HashStays(rest);
    TrimFrontOf(front, "#" + rest);
    assert front + "#" + rest == front + ("#" + rest);
  }

  lemma {:induction false} HashStays(rest: string)
    ensures TrimBack("#" + rest) != "" && TrimBack("#" + rest)[0] == '#'
    decreases |rest|
  {
    var s := "#" + rest;
    if rest != "" {
      assert s[..|s| - 1] == "#" + rest[..|rest| - 1];
      HashStays(rest[..|rest| - 1]);
    }
  }

  /** A line with one equals sign says its two sides, without the white space around them, unless it is a comment. */
  lemma OneEqualsIsAnEntry(front: string, key: string, a: string, b: string, value: string, back: string)
    requires Blank(front) && Blank(a) && Blank(b) && Blank(back)
    requires Tight(key) && Tight(value) && '=' !in key && '=' !in value
    ensures ParseLine(front + key + a + "=" + b + value + back) == if key != "" && key[0] == '#' then None else Some(Entry(key, value))
  {
    hide Trim;
    hide Split;
    hide ParseLine;
    Regrouped(front, key, a, b, value, back);
    TrimSides(key, a, b, value);
    hide Tight;
    var left, right := if key == "" then "" else key + a, if value == "" then "" else b + value;
    TrimOf(if key == "" then front + a else front, left + "=" + right, if value == "" then b + back else back);
    hide Blank;
    TwoSides(front + key + a + "=" + b + value + back, left, right);
  }

  lemma TrimSides(key: string, a: string, b: string, value: string)
    requires Blank(a) && Blank(b) && Tight(key) && Tight(value)
    ensures Trim(if key == "" then "" else key + a) == key && Trim(if value == "" then "" else b + value) == value
  {
    hide Trim;
    TrimOf("", key, if key == "" then "" else a);
    TrimOf(if value == "" then "" else b, value, "");
    assert "" + key + a == key + a && b + value + "" == b + value && "" + "" + "" == "";
  }

  lemma TwoSides(raw: string, left: string, right: string)
    requires Trim(raw) == left + "=" + right && '=' !in left && '=' !in right
    ensures ParseLine(raw) == if (left + "=" + right)[0] == '#' then None else Some(Entry(Trim(left), Trim(right)))
  {
    SplitOnce(left, right, '=');
    hide Trim;
    hide Split;
  }

  lemma Regrouped(front: string, key: string, a: string, b: string, value: string, back: string)
    requires Blank(front) && Blank(a) && Blank(b) && Blank(back)
    requires Tight(key) && Tight(value) && '=' !in key && '=' !in value
    ensures var left, right := if key == "" then "" else key + a, if value == "" then "" else b + value;
            var core := left + "=" + right;
            var before, after := if key == "" then front + a else front, if value == "" then b + back else back;
            && front + key + a + "=" + b + value + back == before + core + after && Blank(before) && Blank(after) && Tight(core)
            && core[0] == (if key == "" then '=' else key[0]) && '=' !in left && '=' !in right
  {
    var left, right := if key == "" then "" else key + a, if value == "" then "" else b + value;
    var core := left + "=" + right;
    assert core[|core| - 1] == if value == "" then '=' else value[|value| - 1];
  }

  /** The lines of a text, each with a newline after it. */
  function Unlines(lines: seq<string>): string {
    if lines == [] then "" else lines[0] + "\n" + Unlines(lines[1..])
  }

  /** A text is its lines, each with a newline after it, but that the newline of the last one may be missing. */
  lemma {:induction false} LinesAreLines(text: string)
    ensures Unlines(Lines(text)) == if text == "" || text[|text| - 1] == '\n' then text else text + "\n"
    decreases |text|
  {
    if text != "" {
      var i := IndexOf(text, '\n');
      if i < |text| {
        var rest := text[i + 1..];
        assert text == text[..i] + "\n" + rest;
        LinesAreLines(rest);
        assert Lines(text)[1..] == Lines(rest);
        assert rest != "" ==> rest[|rest| - 1] == text[|text| - 1];
      } else {
        assert Lines(text) == [text] && [text][1..] == [];
      }
    }
  }

  /** A clean entry is read back from its line. */
  lemma CleanLineRoundTrip(e: Entry)
    requires Clean(e)
    ensures ParseLine(Line(e)) == Some(e)
  {
    hide ParseLine;
    OneEqualsIsAnEntry("", e.key, " ", " ", e.value, "");
    assert "" + e.key + " " + "=" + " " + e.value + "" == Line(e);
  }

  lemma SplitOnce(left: string, right: string, c: char)
    requires c !in left && c !in right
    ensures Split(left + [c] + right, c) == [left, right]
  {
    var s := left + [c] + right;
    assert s[|left|] == c;
    assert forall k :: 0 <= k < |left| ==> s[k] == left[k] && left[k] in left;
    assert s[..|left|] == left && s[|left| + 1..] == right;
    assert forall k :: 0 <= k < |right| ==> right[k] in right;
    assert IndexOf(s, c) == |left| && IndexOf(right, c) == |right|;
  }

  /** The first line of a text, and the rest. */
  lemma LinesStep(line: string, rest: string)
    requires '\n' !in line
    ensures Lines(line + "\n" + rest) == [line] + Lines(rest)
  {
    var text := line + "\n" + rest;
    assert text[|line|] == '\n';
    assert forall k :: 0 <= k < |line| ==> text[k] == line[k] && line[k] in line;
    assert IndexOf(text, '\n') == |line|;
    assert text[..|line|] == line && text[|line| + 1..] == rest;
  }

  lemma NoNewlineInside(e: Entry)
    requires '\n' !in e.key && '\n' !in e.value
    ensures '\n' !in Line(e)
  {
    var middle := " = ";
    assert middle[0] == middle[2] == ' ' && middle[1] == '=';
    assert Line(e) == e.key + middle + e.value;
  }

  /** What the first line of a text adds to the entries of the rest. */
  lemma ParseStep(text: string)
    requires text != []
    ensures var i := IndexOf(text, '\n');
            var rest := Parse(if i == |text| then [] else text[i + 1..]);
            Parse(text) == match ParseLine(text[..i]) case None => rest case Some(e) => [e] + rest
  {
    var i := IndexOf(text, '\n');
    assert text[..|text|] == text;
    if i < |text| {
      assert ([text[..i]] + Lines(text[i + 1..]))[1..] == Lines(text[i + 1..]);
    } else {
      assert [text][1..] == [];
    }
  }

  /** Clean entries are read back from the file, in order. */
  lemma {:induction false} CleanFileRoundTrip(entries: seq<Entry>)
    requires forall e :: e in entries ==> Clean(e)
    ensures Parse(Print(entries)) == entries
  {
    if entries != [] {
      var e := entries[0];
      assert e in entries;
      NoNewlineInside(e);
      LinesStep(Line(e), Print(entries[1..]));
      CleanLineRoundTrip(e);
      CleanFileRoundTrip(entries[1..]);
      var lines := Lines(Print(entries));
      assert lines[1..] == Lines(Print(entries[1..]));
    }
  }

  /** Whatever a file says, it is clean. */
  lemma {:induction false} ParsedAreClean(lines: seq<string>)
    requires forall k :: 0 <= k < |lines| ==> '\n' !in lines[k]
    ensures forall e :: e in ParseLines(lines) ==> Clean(e)
  {
    if lines != [] {
      ParsedIsClean(lines[0]);
      ParsedAreClean(lines[1..]);
    }
  }

  // ---------- the multimap ----------

  function Insert(m: Prefs, e: Entry): Prefs {
    m[e.key := (if e.key in m then m[e.key] else []) + [e.value]]
  }

  function FromEntries(entries: seq<Entry>): Prefs {
    if entries == [] then map[] else Insert(FromEntries(entries[..|entries| - 1]), entries[|entries| - 1])
  }

  /** A multimap has a key exactly for its values, and each of them comes from an entry. */
  lemma {:induction false} EntriesOf(entries: seq<Entry>)
    ensures forall k, v :: k in FromEntries(entries) && v in FromEntries(entries)[k] ==> Entry(k, v) in entries
    ensures forall e :: e in entries ==> e.key in FromEntries(entries) && e.value in FromEntries(entries)[e.key]
    ensures forall k :: k in FromEntries(entries) ==> FromEntries(entries)[k] != []
  {
    if entries != [] {
      var rest, last := entries[..|entries| - 1], entries[|entries| - 1];
      EntriesOf(rest);
      assert entries == rest + [last];
      var m := FromEntries(rest);
      forall k | k in FromEntries(entries)
        ensures FromEntries(entries)[k] == if k != last.key then m[k] else (if k in m then m[k] else []) + [last.value]
      {
      }
    }
  }

  ghost predicate AllClean(m: Prefs) {
    forall k, v :: k in m && v in m[k] ==> Clean(Entry(k, v))
  }

  /**
   * Saving and loading gives back the multimap, with the values of each key in order, exactly if the format can express
   * each of its entries, in whatever order the keys are written.
   */
  lemma SaveThenLoad(entries: seq<Entry>)
    ensures FromEntries(Parse(Print(entries))) == FromEntries(entries) <==> AllClean(FromEntries(entries))
  {
    EntriesOf(entries);
    EntriesOf(Parse(Print(entries)));
    ParsedAreClean(Lines(Print(entries)));
    if AllClean(FromEntries(entries)) {
      forall e | e in entries
        ensures Clean(e)
      {
        assert e == Entry(e.key, e.value);
      }
      CleanFileRoundTrip(entries);
    }
  }

  // ---------- the store ----------

  class FileBackedPreferences {
    var prefs: Prefs

    constructor ()
      ensures prefs == map[] && Valid()
    {
      prefs := map[];
    }

    ghost predicate Valid()
      reads this
    {
      forall k :: k in prefs ==> prefs[k] != []
    }

    method SetValue(key: string, value: string)
      requires Valid()
      modifies this
      ensures Valid() && prefs == old(prefs)[key := [value]]
    {
      RemoveValue(key);
      SetMultipleValue(key, value);
      assert [] + [value] == [value];
    }

    method SetMultipleValue(key: string, value: string)
      requires Valid()
      modifies this
      ensures Valid() && prefs == old(prefs)[key := (if key in old(prefs) then old(prefs)[key] else []) + [value]]
    {
      prefs := prefs[key := (if key in prefs then prefs[key] else []) + [value]];
    }

    method RemoveValue(key: string)
      requires Valid()
      modifies this
      ensures Valid() && prefs == old(prefs) - {key}
    {
      prefs := prefs - {key};
    }

    function HasKey(key: string): bool
      reads this
    {
      key in prefs
    }

    /** The first value of a key, or the empty string. */
    function GetValue(key: string): string
      requires Valid()
      reads this
    {
      if key in prefs then prefs[key][0] else ""
    }

    /** Set a value unless the key has a valid one. Only the first value is looked at, and all are replaced. */
    method SetDefaultValue(key: string, isValid: string -> bool, value: string) returns (changed: bool)
      requires Valid()
      modifies this
      ensures Valid()
      ensures changed <==> key !in old(prefs) || !isValid(old(prefs)[key][0])
      ensures prefs == if changed then old(prefs)[key := [value]] else old(prefs)
    {
      if !HasKey(key) || !isValid(GetValue(key)) {
        SetValue(key, value);
        return true;
      }
      return false;
    }

    /** The text of the file, a line for each value of each key. */
    method SaveToFile() returns (text: string, ghost entries: seq<Entry>)
      requires Valid()
      ensures text == Print(entries) && FromEntries(entries) == prefs
      ensures FromEntries(Parse(text)) == prefs <==> AllClean(prefs)
    {
      hide Print;
      hide Insert;
      hide FromEntries;
      hide Parse;
      hide AllClean;
      NothingPrinted();
      text, entries := "", [];
      var todo := prefs.Keys;
      while todo != {}
        invariant todo <= prefs.Keys
        invariant text == Print(entries) && FromEntries(entries) == prefs - todo
      {
        var key :| key in todo;
        text, entries := SaveKey(key, text, entries);
        todo := todo - {key};
      }
      assert prefs - {} == prefs;
      SaveThenLoad(entries);
    }

    /** The lines of one key, after the text so far. */
    method SaveKey(key: string, text: string, ghost entries: seq<Entry>) returns (longer: string, ghost more: seq<Entry>)
      requires Valid() && key in prefs && text == Print(entries) && key !in FromEntries(entries)
      ensures longer == Print(more) && FromEntries(more) == FromEntries(entries)[key := prefs[key]]
    {
      hide Print;
      hide FromEntries;
      longer, more := text, entries;
      for i := 0 to |prefs[key]|
        invariant longer == Print(more)
        invariant FromEntries(more) == if i == 0 then FromEntries(entries) else FromEntries(entries)[key := prefs[key][..i]]
      {
        var e := Entry(key, prefs[key][i]);
        assert prefs[key][..i + 1] == prefs[key][..i] + [prefs[key][i]];
        OneMore(more, e);
        longer := longer + Line(e) + "\n";
        more := more + [e];
      }
      assert prefs[key][..|prefs[key]|] == prefs[key];
    }

    /** Replace the preferences with what the file says; without a file they stay as they are. */
    method LoadFromFile(file: Option<string>) returns (ok: bool)
      requires Valid()
      modifies this
      ensures Valid() && ok == file.Some?
      ensures prefs == if ok then FromEntries(Parse(file.value)) else old(prefs)
    {
      if file == None {
        return false;
      }
      prefs := map[];
      ghost var entries: seq<Entry> := [];
      var rest := file.value;
      assert [] + Parse(rest) == Parse(rest);
      while rest != []
        invariant prefs == FromEntries(entries) && Valid()
        invariant entries + Parse(rest) == Parse(file.value)
        decreases |rest|
      {
        rest, entries := LoadLine(rest, entries);
      }
      assert entries + [] == entries;
      return true;
    }

    /** Take one line from the text. */
    method LoadLine(text: string, ghost entries: seq<Entry>) returns (rest: string, ghost longer: seq<Entry>)
      requires text != [] && prefs == FromEntries(entries) && Valid()
      modifies this
      ensures prefs == FromEntries(longer) && Valid()
      ensures |rest| < |text| && longer + Parse(rest) == entries + Parse(text)
    {
      ParseStep(text);
      hide Parse;
      hide ParseLine;
      hide Print;
      hide FromEntries;
      hide IndexOf;
      var i := IndexOf(text, '\n');
      var e := ParseLine(text[..i]);
      rest := if i == |text| then [] else text[i + 1..];
      longer := entries;
      if e.Some? {
        OneMore(entries, e.value);
        longer := entries + [e.value];
        Regroup(entries, [e.value], Parse(rest));
        SetMultipleValue(e.value.key, e.value.value);
      }
    }

    /** Saving, and loading what was saved, changes nothing exactly if the format can express every entry. */
    method SaveAndLoad()
      requires Valid()
      modifies this
      ensures Valid()
      ensures prefs == old(prefs) <==> AllClean(old(prefs))
    {
      var text, _ := SaveToFile();
      var ok := LoadFromFile(Some(text));
    }
  }

  lemma NothingPrinted()
    ensures Print([]) == "" && FromEntries([]) == map[]
  {
  }

  lemma Regroup<T>(a: seq<T>, b: seq<T>, c: seq<T>)
    ensures a + (b + c) == a + b + c
  {
  }

  lemma {:induction false} OneMore(entries: seq<Entry>, e: Entry)
    ensures Print(entries + [e]) == Print(entries) + Line(e) + "\n"
    ensures FromEntries(entries + [e]) == Insert(FromEntries(entries), e)
    decreases |entries|
  {
    assert (entries + [e])[..|entries|] == entries;
    if entries == [] {
      assert Print([e]) == Line(e) + "\n" + Print([]);
    } else {
      assert (entries + [e])[1..] == entries[1..] + [e];
      OneMore(entries[1..], e);
    }
  }
}
