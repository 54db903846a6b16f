/** Loading the list of domains from the domain file: one domain per line,
    blank lines and `#` comments skipped. */
module DomainList {
  import opened Text

  /** What reading the domain file gives. The file may be missing; or the
      read may raise after delivering some lines (an unreadable file raises
      before any); or every line is read. Splitting the file into lines is
      not modelled: each string is one line as the file iterator yields it. */
  datatype DomainFile =
    | Missing
    | ReadFailed(linesBeforeError: seq<string>)
    | Read(lines: seq<string>)
  {
    /** The lines the loader's loop gets to see. */
    function LinesSeen(): seq<string>
    {
      match this
      case Missing => []
      case ReadFailed(ls) => ls
      case Read(ls) => ls
    }
  }

  /** A stripped line is kept when it is not empty and not a comment. */
  predicate IsDomainLine(line: string)
  {
    line != [] && line[0] != '#'
  }

  /** The domains in `lines`, in order: each line stripped, blank lines and
      comments dropped. */
  function DomainsIn(lines: seq<string>): (ds: seq<string>)
    ensures |ds| <= |lines|
  {
    if lines == [] then []
    else
      var line := Strip(lines[|lines| - 1]);
      DomainsIn(lines[..|lines| - 1]) + (if IsDomainLine(line) then [line] else [])
  }

  /** `get_domains_from_file`. When the read raises part-way, the domains
      found before the error are still returned. */
  method GetDomainsFromFile(file: DomainFile) returns (domains: seq<string>)
    ensures domains == DomainsIn(file.LinesSeen())
  {
    var lines := file.LinesSeen();
    domains := [];
    var i := 0;
    while i < |lines|
      invariant 0 <= i <= |lines|
      invariant domains == DomainsIn(lines[..i])
    {
      var line := Strip(lines[i]);
      if IsDomainLine(line) {
        domains := domains + [line];
      }
      assert lines[..i + 1][..i] == lines[..i];
      i := i + 1;
    }
    assert lines[..i] == lines;
  }

  /** A missing file gives no domains. */
  lemma MissingFileIsEmpty()
    ensures DomainsIn(Missing.LinesSeen()) == []
  {
  }

  /** Loading two runs of lines loads each in turn, so file order is kept. */
  lemma {:induction false} DomainsInConcat(a: seq<string>, b: seq<string>)
    ensures DomainsIn(a + b) == DomainsIn(a) + DomainsIn(b)
    decreases |b|
  {
    if b == [] {
      assert a + b == a;
    } else {
      var b' := b[..|b| - 1];
      assert (a + b)[..|a + b| - 1] == a + b';
      assert (a + b)[|a + b| - 1] == b[|b| - 1];
      DomainsInConcat(a, b');
    }
  }

  /** Every domain loaded is a stripped line of the file, non-empty, not a
      comment, and without whitespace at either end. */
  lemma {:induction false} DomainsAreCleanLines(lines: seq<string>)
    ensures forall d :: d in DomainsIn(lines) ==>
              IsDomainLine(d) && Trimmed(d) && exists i :: 0 <= i < |lines| && d == Strip(lines[i])
  {
    if lines != [] {
      var init := lines[..|lines| - 1];
      DomainsAreCleanLines(init);
      forall d | d in DomainsIn(init) ensures exists i :: 0 <= i < |lines| && d == Strip(lines[i]) {
        var i :| 0 <= i < |init| && d == Strip(init[i]);
        assert lines[i] == init[i];
      }
    }
  }

  /** Conversely, every line that strips to a domain line is loaded. */
  lemma {:induction false} EveryDomainLineLoaded(lines: seq<string>, i: int)
    requires 0 <= i < |lines| && IsDomainLine(Strip(lines[i]))
    ensures Strip(lines[i]) in DomainsIn(lines)
  {
    if i < |lines| - 1 {
      var init := lines[..|lines| - 1];
      assert init[i] == lines[i];
      EveryDomainLineLoaded(init, i);
    }
  }
}
