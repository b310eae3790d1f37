/**
 CharStruct, the fixed-size string of basket's names and keys: 256 bytes, of which those up to the first NUL count.
 Its users keep texts to 255 bytes; longer ones would be written past the buffer.
 */
module CharStruct {
  import opened Text

  const CAPACITY: nat := 256

  /** A text fits when its terminating NUL does. */
  predicate Fits(t: seq<char>) {
    |t| < CAPACITY
  }

  class Chars {
    const value: array<char>

    /** Some byte of the buffer is NUL. */
    ghost predicate Valid()
      reads value
    {
      value.Length == CAPACITY && Fits(Str())
    }

    /** What c_str() shows. */
    ghost function Str(): seq<char>
      reads value
    {
      CStr(value[..])
    }

    /** `CharStruct(const char*)` and `CharStruct(std::string)`.  What lies behind the NUL is whatever was there. */
    constructor (data: seq<char>)
      requires Fits(CStr(data))
      ensures Valid() && fresh(value) && Str() == CStr(data)
    {
      value := new char[CAPACITY];
      new;
      Write(CStr(data));
    }

    /** `CharStruct(char* data_, size_t size)`: snprintf counts the NUL into `size`, so the last byte is dropped. */
    constructor Sized(data: seq<char>, size: nat)
      requires 0 < size <= CAPACITY
      ensures Valid() && fresh(value)
      ensures Str() == CStr(data)[..if |CStr(data)| < size then |CStr(data)| else size - 1]
    {
      value := new char[CAPACITY];
      new;
      var text := CStr(data);
      Write(text[..if |text| < size then |text| else size - 1]);
    }

    /** snprintf(value, |text| + 1, "%s", text): the text and a NUL; the other bytes stay. */
    method Write(text: seq<char>)
      requires value.Length == CAPACITY && Fits(text) && NUL !in text
      modifies value
      ensures Valid() && Str() == text
      ensures forall i :: |text| < i < CAPACITY ==> value[i] == old(value[i])
    {
      for i := 0 to |text|
        invariant value[..i] == text[..i]
        invariant forall j :: i <= j < CAPACITY ==> value[j] == old(value[j])
      {
        value[i] := text[i];
      }
      value[|text|] := NUL;
      assert value[..][..|text|] == text;
      CStrIs(value[..], text);
    }

    /** `size()`: strlen. */
    method Size() returns (n: nat)
      requires Valid()
      ensures n == |Str()|
    {
      n := 0;
      while value[n] != NUL
        invariant n <= |Str()|
        decreases |Str()| - n
      {
        CharAt(value[..], n);
        n := n + 1;
      }
      CharAt(value[..], n);
    }

    /** `operator=`: strcpy, byte by byte up to and including the NUL.  Stale bytes stay behind it.  Assigning an
        object to itself is harmless. */
    method Assign(other: Chars)
      requires value.Length == CAPACITY && other.Valid()
      modifies value
      ensures Valid() && Str() == old(other.Str())
      ensures forall i :: |Str()| < i < CAPACITY ==> value[i] == old(value[i])
    {
      ghost var text := other.Str();
      ghost var bytes := other.value[..];
      var i := 0;
      while other.value[i] != NUL
        invariant i <= |text|
        invariant value[..i] == text[..i]
        invariant forall j :: i <= j < CAPACITY ==> value[j] == old(value[j]) && other.value[j] == bytes[j]
        decreases |text| - i
      {
        CharAt(bytes, i);
        value[i] := other.value[i];
        i := i + 1;
      }
      CharAt(bytes, i);
      value[i] := NUL;
      assert value[..][..|text|] == text;
      CStrIs(value[..], text);
    }

    /** strcmp(this, other): negative, zero or positive. */
    method Compare(other: Chars) returns (r: int)
      requires Valid() && other.Valid()
      ensures r == 0 <==> Str() == other.Str()
      ensures r < 0 <==> TextLess(Str(), other.Str())
      ensures r > 0 <==> TextLess(other.Str(), Str())
    {
      ghost var a, b := Str(), other.Str();
      var i := 0;
      while value[i] == other.value[i] && value[i] != NUL
        invariant i <= |a| && i <= |b| && a[..i] == b[..i]
        decreases |a| - i
      {
        CharAt(value[..], i);
        CharAt(other.value[..], i);
        i := i + 1;
      }
      CharAt(value[..], i);
      CharAt(other.value[..], i);
      r := value[i] as int - other.value[i] as int;
      LessAtFirstDifference(a, b, i);
      LessAtFirstDifference(b, a, i);
      assert i == |a| == |b| ==> a == a[..i] == b[..i] == b;
    }

    /** `operator+=`.  The right-hand side may be the object itself. */
    method Append(rhs: Chars)
      requires Valid() && rhs.Valid() && Fits(Str() + rhs.Str())
      modifies value
      ensures Valid() && Str() == old(Str() + rhs.Str())
    {
      var left := this.Text();
      var right := rhs.Text();
      Write(left + right);
    }

    /** `operator+` */
    method Plus(o: Chars) returns (sum: Chars)
      requires Valid() && o.Valid() && Fits(Str() + o.Str())
      ensures fresh(sum) && sum.Valid() && sum.Str() == Str() + o.Str()
    {
      var left := this.Text();
      var right := o.Text();
      NoNulCStr(left + right);
      sum := new Chars(left + right);
    }

    /** `string()` */
    method Text() returns (text: seq<char>)
      requires Valid()
      ensures text == Str()
    {
      var n := Size();
      text := value[..n];
    }

    /** std::hash<CharStruct>: the hash of the text. */
    method Hash(hash: seq<char> -> nat) returns (h: nat)
      requires Valid()
      ensures h == hash(Str())
    {
      var text := this.Text();
      h := hash(text);
    }

    /** msgpack `pack`: the length, and as many bytes of the buffer. */
    method Pack() returns (size: nat, body: seq<char>)
      requires Valid()
      ensures size == |body| && body == Str()
    {
      size := Size();
      body := value[..size];
    }

    /** msgpack `convert` into this object. */
    method Convert(size: nat, body: seq<char>)
      requires value.Length == CAPACITY && size == |body| && Fits(CStr(body))
      modifies value
      ensures Valid() && Str() == CStr(body)
    {
      var input := new Chars(body);
      Assign(input);
    }
  }

  /** A byte of the buffer is a byte of the text, or the NUL behind it. */
  lemma CharAt(s: seq<char>, i: nat)
    requires i <= |CStr(s)| < |s|
    ensures s[i] != NUL ==> i < |CStr(s)| && CStr(s)[i] == s[i]
    ensures s[i] == NUL ==> i == |CStr(s)|
  {
    assert forall j :: 0 <= j < |CStr(s)| ==> CStr(s)[j] in CStr(s);
  }

  /** Packing and converting give back an equal value, whatever the buffers held before. */
  method PackThenConvert(from: Chars, to: Chars)
    requires from.Valid() && to.value.Length == CAPACITY
    modifies to.value
    ensures to.Valid() && to.Str() == old(from.Str())
  {
    var size, body := from.Pack();
    NoNulCStr(body);
    to.Convert(size, body);
  }
}
