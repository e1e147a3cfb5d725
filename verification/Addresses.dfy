/** Actor addresses, and the CSV lists in which followers are exported and imported. */
module Addresses {
  import opened Collections
  import opened Text

  datatype ActorAddress = ActorAddress(username: string, hostname: string)

  /** The character classes `\w` and whitespace beyond ASCII. */
  datatype Unicode = Unicode(word: char -> bool, space: char -> bool) {
    predicate IsWord(c: char) {
      'a' <= c <= 'z' || 'A' <= c <= 'Z' || '0' <= c <= '9' || c == '_' || (c as int > 127 && word(c))
    }

    predicate IsSpace(c: char) {
      9 <= c as int <= 13 || c == ' ' || (c as int > 127 && space(c))
    }

    ghost predicate Disjoint() {
      forall c: char :: c as int > 127 ==> !(word(c) && space(c))
    }

    /** `[\w\.-]+` */
    predicate IsName(s: string) {
      s != "" && forall i :: 0 <= i < |s| ==> IsWord(s[i]) || s[i] == '.' || s[i] == '-'
    }

    predicate IsAddress(a: ActorAddress) {
      IsName(a.username) && IsName(a.hostname)
    }

    predicate AllValid(addresses: seq<ActorAddress>) {
      forall i :: 0 <= i < |addresses| ==> IsAddress(addresses[i])
    }
  }

  function Print(a: ActorAddress): string {
    a.username + "@" + a.hostname
  }

  /** `^(?P<username>[\w\.-]+)@(?P<hostname>[\w\.-]+)$`; a name contains no `@`. */
  function FromStr(u: Unicode, value: string): Option<ActorAddress> {
    var parts := Split(value, '@');
    if |parts| == 2 && u.IsName(parts[0]) && u.IsName(parts[1]) then Some(ActorAddress(parts[0], parts[1])) else None
  }

  /** The `@` prefix is optional. */
  function FromMention(u: Unicode, mention: string): Option<ActorAddress> {
    FromStr(u, if mention != "" && mention[0] == '@' then mention[1..] else mention)
  }

  lemma FromStrIsValid(u: Unicode, value: string)
    ensures var a := FromStr(u, value);
            a.Some? ==> u.IsAddress(a.value) && Print(a.value) == value
  {
    var parts := Split(value, '@');
    JoinSplit(value, '@');
    if |parts| == 2 {
      assert parts == [parts[0], parts[1]];
      assert Join(parts, '@') == parts[0] + ['@'] + parts[1];
    }
  }

  /** An address is read back from what is printed exactly when both names are well-formed. */
  lemma AddressRoundTrip(u: Unicode, a: ActorAddress)
    ensures FromStr(u, Print(a)) == Some(a) <==> u.IsAddress(a)
    ensures FromMention(u, Print(a)) == Some(a) <==> u.IsAddress(a)
    ensures FromMention(u, "@" + Print(a)) == Some(a) <==> u.IsAddress(a)
  {
    FromStrIsValid(u, Print(a));
    FromStrIsValid(u, Print(a)[1..]);
    assert ("@" + Print(a))[1..] == Print(a);
    if u.IsAddress(a) {
      assert Print(a)[0] == a.username[0];
      assert Split(Print(a), '@') == [a.username, a.hostname] by {
        SplitFirst(a.username, a.hostname, '@');
        SplitPiece(a.hostname, '@');
      }
    }
  }

  // Export

  /** `ActorAddress::from_profile`: a local profile has no host name of its own. */
  function FromProfile(localHostname: string, username: string, hostname: Option<string>): ActorAddress {
    ActorAddress(username, if hostname.Some? then hostname.value else localHostname)
  }

  function Csv(addresses: seq<ActorAddress>): string {
    if addresses == [] then "" else Print(addresses[0]) + "\n" + Csv(addresses[1..])
  }

  lemma {:induction false} CsvAppend(addresses: seq<ActorAddress>, a: ActorAddress)
    ensures Csv(addresses + [a]) == Csv(addresses) + (Print(a) + "\n")
  {
    if addresses == [] {
      assert (addresses + [a])[1..] == [];
    } else {
      CsvAppend(addresses[1..], a);
      assert (addresses + [a])[1..] == addresses[1..] + [a];
    }
  }

  /** `export_profiles_to_csv`, for profiles given as user name and stored host name. */
  method ExportProfilesToCsv(localHostname: string, profiles: seq<(string, Option<string>)>) returns (csv: string)
    ensures csv == Csv(seq(|profiles|, i requires 0 <= i < |profiles| => FromProfile(localHostname, profiles[i].0, profiles[i].1)))
    ensures csv == Csv(seq(|profiles|, i requires 0 <= i < |profiles| =>
                         match profiles[i] {
                           case (name, Some(host)) => ActorAddress(name, host)
                           case (name, None) => ActorAddress(name, localHostname)
                         }))
  {
    csv := "";
    ghost var addresses := seq(|profiles|, i requires 0 <= i < |profiles| => FromProfile(localHostname, profiles[i].0, profiles[i].1));
    for i := 0 to |profiles|
      invariant csv == Csv(addresses[..i])
    {
      var address := FromProfile(localHostname, profiles[i].0, profiles[i].1);
      assert addresses[..i + 1] == addresses[..i] + [address];
      CsvAppend(addresses[..i], address);
      csv := csv + (Print(address) + "\n");
    }
    assert addresses[..|profiles|] == addresses;
    assert addresses == seq(|profiles|, i requires 0 <= i < |profiles| =>
                          match profiles[i] {
                            case (name, Some(host)) => ActorAddress(name, host)
                            case (name, None) => ActorAddress(name, localHostname)
                          });
  }

  // Import

  function StripReturn(line: string): string {
    if line != "" && line[|line| - 1] == '\r' then line[..|line| - 1] else line
  }

  /** `str::lines`: no line after a final newline, and `\r\n` also ends a line. */
  function Lines(text: string): seq<string> {
    var parts := Split(text, '\n');
    var lines := if parts[|parts| - 1] == "" then parts[..|parts| - 1] else parts;
    seq(|lines|, i requires 0 <= i < |lines| => if i == |parts| - 1 then lines[i] else StripReturn(lines[i]))
  }

  function Trim(u: Unicode, s: string): string {
    if s == "" then ""
    else if u.IsSpace(s[0]) then Trim(u, s[1..])
    else if u.IsSpace(s[|s| - 1]) then Trim(u, s[..|s| - 1])
    else s
  }

  /** The addresses on the lines that are not blank; none if one of them is malformed. */
  function ReadLines(u: Unicode, lines: seq<string>): Option<seq<ActorAddress>> {
    if lines == [] then Some([])
    else
      var line := Trim(u, lines[0]);
      if line == "" then ReadLines(u, lines[1..])
      else
        var a := FromMention(u, line);
        if a.None? then None
        else
          var rest := ReadLines(u, lines[1..]);
          if rest.None? then None else Some([a.value] + rest.value)
  }

  predicate AllSpace(u: Unicode, s: string) {
    forall i :: 0 <= i < |s| ==> u.IsSpace(s[i])
  }

  predicate Around(u: Unicode, s: string, before: string, m: string, after: string) {
    s == before + m + after && AllSpace(u, before) && AllSpace(u, after)
  }

  lemma OneSpaceMore(u: Unicode, s: string, before: string, m: string, after: string)
    requires s != "" && u.IsSpace(s[0]) && Around(u, s[1..], before, m, after)
    ensures Around(u, s, [s[0]] + before, m, after)
  {
    assert s == [s[0]] + s[1..];
    assert s == [s[0]] + before + m + after;
  }

  lemma OneSpaceLater(u: Unicode, s: string, before: string, m: string, after: string)
    requires s != "" && u.IsSpace(s[|s| - 1]) && Around(u, s[..|s| - 1], before, m, after)
    ensures Around(u, s, before, m, after + [s[|s| - 1]])
  {
    assert s == s[..|s| - 1] + [s[|s| - 1]];
    assert s == before + m + (after + [s[|s| - 1]]);
  }

  ghost predicate IsTrimmed(u: Unicode, s: string, m: string) {
    && (exists before, after :: Around(u, s, before, m, after))
    && (m != "" ==> !u.IsSpace(m[0]) && !u.IsSpace(m[|m| - 1]))
  }

  /** `Trim` takes away white space at both ends, and all of it. */
  lemma {:induction false} TrimIsTrimmed(u: Unicode, s: string)
    ensures IsTrimmed(u, s, Trim(u, s))
  {
    var m := Trim(u, s);
    if s == "" {
      assert Around(u, s, "", m, "");
    } else if u.IsSpace(s[0]) {
      TrimIsTrimmed(u, s[1..]);
      var before, after :| Around(u, s[1..], before, m, after);
      OneSpaceMore(u, s, before, m, after);
    } else if u.IsSpace(s[|s| - 1]) {
      TrimIsTrimmed(u, s[..|s| - 1]);
      var before, after :| Around(u, s[..|s| - 1], before, m, after);
      OneSpaceLater(u, s, before, m, after);
    } else {
      assert Around(u, s, "", m, "");
    }
  }

  /** The line is blank or holds an address. */
  predicate Readable(u: Unicode, line: string) {
    Trim(u, line) == "" || FromMention(u, Trim(u, line)).Some?
  }

  /** A list is read exactly when every line is blank or an address, and then it has the addresses
      of its lines. */
  lemma {:induction false} ReadLineByLine(u: Unicode, lines: seq<string>)
    ensures ReadLines(u, lines).Some? <==> forall i :: 0 <= i < |lines| ==> Readable(u, lines[i])
    ensures ReadLines(u, lines).Some? ==>
              forall a :: a in ReadLines(u, lines).value <==>
                exists i :: 0 <= i < |lines| && Trim(u, lines[i]) != "" && FromMention(u, Trim(u, lines[i])) == Some(a)
  {
    if lines != [] {
      var rest := lines[1..];
      ReadLineByLine(u, rest);
      assert lines == [lines[0]] + rest;
      assert forall i :: 0 <= i < |rest| ==> rest[i] == lines[i + 1];
      if ReadLines(u, lines).Some? {
        forall a
          ensures a in ReadLines(u, lines).value <==>
                    exists i :: 0 <= i < |lines| && Trim(u, lines[i]) != "" && FromMention(u, Trim(u, lines[i])) == Some(a)
        {
          OneLineMore(u, lines, a);
        }
      }
    }
  }

  lemma OneLineMore(u: Unicode, lines: seq<string>, a: ActorAddress)
    requires lines != []
    ensures (exists i :: 0 <= i < |lines| && Trim(u, lines[i]) != "" && FromMention(u, Trim(u, lines[i])) == Some(a)) <==>
              || (Trim(u, lines[0]) != "" && FromMention(u, Trim(u, lines[0])) == Some(a))
              || (exists i :: 0 <= i < |lines[1..]| && Trim(u, lines[1..][i]) != "" && FromMention(u, Trim(u, lines[1..][i])) == Some(a))
  {
    if i :| 0 <= i < |lines| && Trim(u, lines[i]) != "" && FromMention(u, Trim(u, lines[i])) == Some(a) {
      if i > 0 {
        assert lines[1..][i - 1] == lines[i];
      }
    }
    if i :| 0 <= i < |lines[1..]| && Trim(u, lines[1..][i]) != "" && FromMention(u, Trim(u, lines[1..][i])) == Some(a) {
      assert lines[1..][i] == lines[i + 1];
    }
  }

  /** Reading yields only well-formed addresses. */
  lemma {:induction false} ReadIsValid(u: Unicode, lines: seq<string>)
    ensures var r := ReadLines(u, lines);
            r.Some? ==> u.AllValid(r.value)
  {
    if lines != [] {
      var line := Trim(u, lines[0]);
      ReadIsValid(u, lines[1..]);
      if line != "" {
        FromStrIsValid(u, line);
        FromStrIsValid(u, line[1..]);
      }
    }
  }

  lemma NamesAreSolid(u: Unicode, a: ActorAddress)
    requires u.Disjoint() && u.IsAddress(a)
    ensures forall i :: 0 <= i < |Print(a)| ==> !u.IsSpace(Print(a)[i])
  {
  }

  function Printed(addresses: seq<ActorAddress>): (lines: seq<string>)
    ensures |lines| == |addresses| && forall i :: 0 <= i < |lines| ==> lines[i] == Print(addresses[i])
  {
    seq(|addresses|, i requires 0 <= i < |addresses| => Print(addresses[i]))
  }

  /** The lines of an exported list are the printed addresses. */
  lemma {:induction false} CsvLines(u: Unicode, addresses: seq<ActorAddress>)
    requires u.Disjoint() && u.AllValid(addresses)
    ensures Split(Csv(addresses), '\n') == Printed(addresses) + [""]
  {
    if addresses != [] {
      var line, rest := Print(addresses[0]), Csv(addresses[1..]);
      NamesAreSolid(u, addresses[0]);
      assert '\n' !in line by {
        assert u.IsSpace('\n');
      }
      assert Csv(addresses) == line + ['\n'] + rest;
      SplitFirst(line, rest, '\n');
      CsvLines(u, addresses[1..]);
    }
  }

  lemma {:induction false} ReadPrinted(u: Unicode, addresses: seq<ActorAddress>, lines: seq<string>)
    requires u.Disjoint() && u.AllValid(addresses)
    requires |lines| == |addresses| && forall i :: 0 <= i < |lines| ==> lines[i] == Print(addresses[i])
    ensures ReadLines(u, lines) == Some(addresses)
  {
    if lines != [] {
      NamesAreSolid(u, addresses[0]);
      assert lines[0][0] == Print(addresses[0])[0];
      assert Trim(u, lines[0]) == lines[0];
      AddressRoundTrip(u, addresses[0]);
      ReadPrinted(u, addresses[1..], lines[1..]);
      assert addresses == [addresses[0]] + addresses[1..];
    }
  }

  lemma NothingToStrip(u: Unicode, addresses: seq<ActorAddress>, i: nat)
    requires u.Disjoint() && u.AllValid(addresses) && i < |addresses|
    ensures StripReturn(Print(addresses[i])) == Print(addresses[i])
  {
    NamesAreSolid(u, addresses[i]);
    assert u.IsSpace('\r');
  }

  lemma StrippedLines(text: string, lines: seq<string>)
    requires Split(text, '\n') == lines + [""] && forall i :: 0 <= i < |lines| ==> StripReturn(lines[i]) == lines[i]
    ensures Lines(text) == lines
  {
    assert (lines + [""])[..|lines|] == lines;
  }

  lemma LinesOfCsv(u: Unicode, addresses: seq<ActorAddress>)
    requires u.Disjoint() && u.AllValid(addresses)
    ensures Lines(Csv(addresses)) == Printed(addresses)
  {
    CsvLines(u, addresses);
    forall i | 0 <= i < |addresses| ensures StripReturn(Print(addresses[i])) == Print(addresses[i]) {
      NothingToStrip(u, addresses, i);
    }
    StrippedLines(Csv(addresses), Printed(addresses));
  }

  /** Reading an exported list yields the exported addresses, in order. */
  lemma ReadCsv(u: Unicode, addresses: seq<ActorAddress>)
    requires u.Disjoint() && u.AllValid(addresses)
    ensures ReadLines(u, Lines(Csv(addresses))) == Some(addresses)
  {
    LinesOfCsv(u, addresses);
    ReadPrinted(u, addresses, Printed(addresses));
  }

  // Sorting and removing duplicates

  predicate AddressLess(a: ActorAddress, b: ActorAddress) {
    Less(a.username, b.username) || (a.username == b.username && Less(a.hostname, b.hostname))
  }

  lemma AddressOrder(a: ActorAddress, b: ActorAddress, c: ActorAddress)
    ensures a == b || AddressLess(a, b) || AddressLess(b, a)
    ensures AddressLess(a, b) && AddressLess(b, c) ==> AddressLess(a, c)
    ensures !AddressLess(a, a)
  {
    LessTotal(a.username, b.username);
    LessTotal(a.hostname, b.hostname);
    LessIrreflexive(a.username);
    LessIrreflexive(a.hostname);
    if AddressLess(a, b) && AddressLess(b, c) {
      if Less(a.username, b.username) && Less(b.username, c.username) {
        LessTransitive(a.username, b.username, c.username);
      } else if Less(a.hostname, b.hostname) && Less(b.hostname, c.hostname) {
        LessTransitive(a.hostname, b.hostname, c.hostname);
      }
    }
  }

  predicate Ascending(s: seq<ActorAddress>) {
    forall i, j :: 0 <= i < j < |s| ==> s[i] == s[j] || AddressLess(s[i], s[j])
  }

  predicate StrictlyAscending(s: seq<ActorAddress>) {
    forall i, j :: 0 <= i < j < |s| ==> AddressLess(s[i], s[j])
  }

  /** `addresses.sort()` */
  method Sort(addresses: seq<ActorAddress>) returns (sorted: seq<ActorAddress>)
    ensures Ascending(sorted) && multiset(sorted) == multiset(addresses)
  {
    sorted := [];
    for k := 0 to |addresses|
      invariant Ascending(sorted) && multiset(sorted) == multiset(addresses[..k])
    {
      var a, i := addresses[k], 0;
      while i < |sorted| && !AddressLess(a, sorted[i])
        invariant 0 <= i <= |sorted|
        invariant forall j :: 0 <= j < i ==> sorted[j] == a || AddressLess(sorted[j], a)
      {
        AddressOrder(a, sorted[i], a);
        i := i + 1;
      }
      InsertAscending(sorted, a, i);
      InsertMultiset(sorted, a, i);
      assert addresses[..k + 1] == addresses[..k] + [a];
      sorted := sorted[..i] + [a] + sorted[i..];
    }
    assert addresses[..|addresses|] == addresses;
  }

  lemma AddressTransitive(a: ActorAddress, b: ActorAddress, c: ActorAddress)
    requires AddressLess(a, b) && AddressLess(b, c)
    ensures AddressLess(a, c)
  {
    AddressOrder(a, b, c);
  }

  lemma InsertAscending(s: seq<ActorAddress>, a: ActorAddress, i: nat)
    requires Ascending(s) && i <= |s|
    requires forall j :: 0 <= j < i ==> s[j] == a || AddressLess(s[j], a)
    requires i < |s| ==> AddressLess(a, s[i])
    ensures Ascending(s[..i] + [a] + s[i..])
  {
    forall j | i <= j < |s| ensures AddressLess(a, s[j]) {
      if i < j && s[i] != s[j] {
        AddressTransitive(a, s[i], s[j]);
      }
    }
    var longer := s[..i] + [a] + s[i..];
    forall p, q | 0 <= p < q < |longer| ensures longer[p] == longer[q] || AddressLess(longer[p], longer[q]) {
      assert longer[p] == if p < i then s[p] else if p == i then a else s[p - 1];
      assert longer[q] == if q < i then s[q] else if q == i then a else s[q - 1];
    }
  }

  lemma InsertMultiset<T>(s: seq<T>, a: T, i: nat)
    requires i <= |s|
    ensures multiset(s[..i] + [a] + s[i..]) == multiset(s) + multiset{a}
  {
    assert s == s[..i] + s[i..];
  }

  /** `addresses.dedup()`: of consecutive equal elements the first stays. */
  method Dedup(sorted: seq<ActorAddress>) returns (distinct: seq<ActorAddress>)
    requires Ascending(sorted)
    ensures StrictlyAscending(distinct) && Elements(distinct) == Elements(sorted)
  {
    distinct := [];
    for k := 0 to |sorted|
      invariant StrictlyAscending(distinct) && Elements(distinct) == Elements(sorted[..k])
      invariant if k == 0 then distinct == [] else distinct != [] && distinct[|distinct| - 1] == sorted[k - 1]
    {
      var a := sorted[k];
      assert sorted[..k + 1] == sorted[..k] + [a];
      ElementsAppend(sorted[..k], a);
      ElementsAppend(distinct, a);
      if distinct == [] || distinct[|distinct| - 1] != a {
        forall i | 0 <= i < |distinct| ensures AddressLess(distinct[i], a) {
          AddressOrder(distinct[i], distinct[|distinct| - 1], a);
        }
        distinct := distinct + [a];
      }
    }
    assert sorted[..|sorted|] == sorted;
  }

  const ADDRESS_LIST_MAX := 50

  datatype AddressList = Addresses(list: seq<ActorAddress>) | Invalid(reason: string)

  predicate IsSortedSet(list: seq<ActorAddress>, addresses: seq<ActorAddress>) {
    StrictlyAscending(list) && Elements(list) == Elements(addresses)
  }

  /** What importing a list must return. */
  predicate ImportsAs(u: Unicode, csv: string, r: AddressList) {
    var read := ReadLines(u, Lines(csv));
    if read.None? then r == Invalid("invalid actor address")
    else if |Elements(read.value)| > 50 then r == Invalid("can't process more than 50 items at once")
    else r.Addresses? && IsSortedSet(r.list, read.value)
  }

  lemma StrictLength(s: seq<ActorAddress>)
    requires StrictlyAscending(s)
    ensures |Elements(s)| == |s|
  {
    forall i, j | 0 <= i < j < |s| ensures s[i] != s[j] {
      AddressOrder(s[i], s[j], s[i]);
    }
    DistinctLength(s);
  }

  /** `parse_address_list` */
  method ParseAddressList(u: Unicode, csv: string) returns (r: AddressList)
    ensures ImportsAs(u, csv, r)
  {
    var read := ReadLines(u, Lines(csv));
    if read.None? {
      return Invalid("invalid actor address");
    }
    var sorted := Sort(read.value);
    var addresses := Dedup(sorted);
    assert Elements(sorted) == Elements(read.value) by {
      forall a ensures a in sorted <==> a in read.value {
        assert a in sorted <==> a in multiset(sorted);
        assert a in read.value <==> a in multiset(read.value);
      }
    }
    StrictLength(addresses);
    if |addresses| > ADDRESS_LIST_MAX {
      return Invalid("can't process more than 50 items at once");
    }
    r := Addresses(addresses);
  }

  lemma SameElementsValid(u: Unicode, a: seq<ActorAddress>, b: seq<ActorAddress>)
    requires Elements(a) == Elements(b) && u.AllValid(b)
    ensures u.AllValid(a)
  {
    forall i | 0 <= i < |a| ensures u.IsAddress(a[i]) {
      assert a[i] in Elements(b);
    }
  }

  /** Importing an exported list returns exactly the exported addresses, sorted and without
      duplicates, if and only if they are all well-formed and at most 50 are distinct. */
  lemma ImportUndoesExport(u: Unicode, addresses: seq<ActorAddress>, r: AddressList)
    requires u.Disjoint() && ImportsAs(u, Csv(addresses), r)
    ensures r.Addresses? && IsSortedSet(r.list, addresses) <==> u.AllValid(addresses) && |Elements(addresses)| <= 50
  {
    var read := ReadLines(u, Lines(Csv(addresses)));
    if u.AllValid(addresses) {
      ReadCsv(u, addresses);
      assert read == Some(addresses);
    } else if r.Addresses? && Elements(r.list) == Elements(addresses) {
      ReadIsValid(u, Lines(Csv(addresses)));
      SameElementsValid(u, addresses, read.value);
    }
  }
}
