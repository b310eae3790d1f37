/**
 The names a container derives from its own: backing file and segment object per server, and RPC endpoint per
 operation.  As long as they fit a CharStruct (255 bytes), no two of them coincide.
 */
module Naming {
  import opened Decimal

  /** `name_ + "_" + std::to_string(my_server)`: the object in the segment. */
  function SegmentName(name: seq<char>, server: nat): seq<char> {
    name + "_" + Digits(server)
  }

  /** `BACKED_FILE_DIR + PATH_SEPARATOR + name_ + "_" + std::to_string(my_server)` */
  function BackedFile(dir: seq<char>, name: seq<char>, server: nat): seq<char> {
    dir + "/" + name + "_" + Digits(server)
  }

  /** The operations that the containers bind. */
  const OPERATIONS: set<seq<char>> := {
    "Put", "Get", "Erase", "GetAllData", "Contains", "SeekFirst", "PopFirst", "SeekFirstN", "Size",
    "Push", "Pop", "WaitForElement", "Top", "GetNextSequence", "GetTime"
  }

  /** `func_prefix + "_" + operation` */
  function Endpoint(prefix: seq<char>, operation: seq<char>): seq<char> {
    prefix + "_" + operation
  }

  /** The last underscore parts a name from a suffix without underscores, whatever the name contains. */
  lemma LastUnderscoreParts(a: seq<char>, x: seq<char>, b: seq<char>, y: seq<char>)
    requires '_' !in x && '_' !in y
    requires a + "_" + x == b + "_" + y
    ensures a == b && x == y
  {
    var s := a + "_" + x;
    SuffixNotLonger(a, x, b, y);
    SuffixNotLonger(b, y, a, x);
    assert a == s[..|a|] && b == (b + "_" + y)[..|b|];
    assert x == s[|a| + 1..] && y == (b + "_" + y)[|b| + 1..];
  }

  lemma SuffixNotLonger(a: seq<char>, x: seq<char>, b: seq<char>, y: seq<char>)
    requires '_' !in y
    requires a + "_" + x == b + "_" + y
    ensures |y| <= |x|
  {
    var s := b + "_" + y;
    assert (a + "_" + x)[|a|] == '_';
    assert forall i :: |b| < i < |s| ==> s[i] == y[i - |b| - 1] && y[i - |b| - 1] in y;
  }

  lemma DigitsHaveNoUnderscore(n: nat)
    ensures '_' !in Digits(n)
  {
  }

  /** Distinct (container, server) pairs have distinct backing files and segment names, underscores and digits in
      the names notwithstanding. */
  lemma FilesAreDistinct(dir: seq<char>, name: seq<char>, server: nat, name': seq<char>, server': nat)
    ensures BackedFile(dir, name, server) == BackedFile(dir, name', server') <==> name == name' && server == server'
    ensures SegmentName(name, server) == SegmentName(name', server') <==> name == name' && server == server'
  {
    DigitsHaveNoUnderscore(server);
    DigitsHaveNoUnderscore(server');
    if BackedFile(dir, name, server) == BackedFile(dir, name', server') {
      var front, front' := dir + "/" + name, dir + "/" + name';
      LastUnderscoreParts(front, Digits(server), front', Digits(server'));
      assert name == front[|dir| + 1..] && name' == front'[|dir| + 1..];
      DigitsInjective(server, server');
    }
    if SegmentName(name, server) == SegmentName(name', server') {
      LastUnderscoreParts(name, Digits(server), name', Digits(server'));
      DigitsInjective(server, server');
    }
  }

  /** The last underscore of a name stands before the decimal of the server, which has no leading zero. */
  ghost predicate EndsWithServer(file: seq<char>, front: seq<char>, server: nat) {
    exists number ::
      && file == front + "_" + number && '_' !in number && Atoi(number) == server
      && number != "" && (number == "0" || number[0] != '0')
  }

  /** A backing file lies in the directory, and carries the name of the container and the number of the server. */
  lemma FilesAreNamed(dir: seq<char>, name: seq<char>, server: nat)
    ensures EndsWithServer(BackedFile(dir, name, server), dir + "/" + name, server)
    ensures EndsWithServer(SegmentName(name, server), name, server)
    ensures BackedFile(dir, name, server) == dir + "/" + SegmentName(name, server)
  {
    var number := Digits(server);
    DigitsHaveNoUnderscore(server);
    AtoiOfDigits(server);
    DigitsAreShortest(server);
    assert BackedFile(dir, name, server) == dir + "/" + name + "_" + number;
    assert dir + "/" + name + "_" + number == dir + "/" + (name + "_" + number);
  }

  /** An endpoint starts with the name of the container, and its last underscore stands before the operation. */
  lemma EndpointIsNamed(prefix: seq<char>, operation: seq<char>)
    ensures var e := Endpoint(prefix, operation);
            |e| == |prefix| + 1 + |operation| && e[..|prefix|] == prefix && e[|prefix|] == '_' &&
              e[|prefix| + 1..] == operation
  {
  }

  /** Distinct (container, operation) pairs have distinct endpoints. */
  lemma EndpointsAreDistinct(prefix: seq<char>, operation: seq<char>, prefix': seq<char>, operation': seq<char>)
    requires operation in OPERATIONS && operation' in OPERATIONS
    ensures Endpoint(prefix, operation) == Endpoint(prefix', operation') <==>
              prefix == prefix' && operation == operation'
  {
    if Endpoint(prefix, operation) == Endpoint(prefix', operation') {
      assert forall o :: o in OPERATIONS ==> '_' !in o;
      LastUnderscoreParts(prefix, operation, prefix', operation');
    }
  }
}
