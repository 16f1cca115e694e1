/** SmallString<N>: a string kept inline in an N-byte object when it is short,
    and in a copy taken from a zone otherwise. The object is a 32-bit length
    followed by the inline bytes; a long string's copy is reached through a
    pointer that shares the inline bytes' storage. */
module SmallStrings {
  import opened Defs

  /** Globals::kNullTerminated: the largest `size_t`, with pointers of `ptrSize` bytes. */
  function NullTerminated(ptrSize: nat): nat {
    if ptrSize == 4 then 0xFFFF_FFFF else 0xFFFF_FFFF_FFFF_FFFF
  }

  /** `sizeof(SmallStringBase)`: the length and inline bytes, or two pointers. */
  function BaseSize(ptrSize: nat): nat {
    2 * ptrSize
  }

  /** kWholeSize: the object is N bytes, and never smaller than its base. */
  function WholeSize(n: nat, ptrSize: nat): (w: nat)
    ensures w >= n && w >= BaseSize(ptrSize) && (w == n || w == BaseSize(ptrSize))
  {
    Max(n, BaseSize(ptrSize))
  }

  /** kMaxEmbeddedLength: what fits after the 4-byte length with its terminator. */
  function MaxEmbeddedLength(n: nat, ptrSize: nat): (m: int)
    ensures m + 1 == WholeSize(n, ptrSize) - 4
  {
    WholeSize(n, ptrSize) - 5
  }

  /** `strlen`: the index of the first NUL. */
  function StrLen(s: seq<char>): (n: nat)
    requires '\0' in s
    ensures n < |s| && s[n] == '\0' && '\0' !in s[..n]
  {
    if s[0] == '\0' then 0
    else
      assert '\0' in s[1..] by {
        var k :| 0 <= k < |s| && s[k] == '\0';
        assert s[1..][k - 1] == '\0';
      }
      var m := StrLen(s[1..]);
      assert s[..m + 1] == [s[0]] + s[1..][..m];
      m + 1
  }

  /** The memory a zone can still hand out. How a zone grows its blocks is
      not part of this model: a request succeeds when it fits what is left. */
  class Zone {
    var available: nat

    constructor (available: nat)
      ensures this.available == available
    {
      this.available := available;
    }

    /** Zone::dup: a copy of `s`, NUL-terminated when asked, or nothing when
        the zone cannot provide the bytes. */
    method Dup(s: seq<char>, nullTerminate: bool) returns (p: Option<seq<char>>)
      modifies this
      ensures var size := |s| + (if nullTerminate then 1 else 0);
              && (p.Some? <==> size <= old(available))
              && (p.Some? ==> p.value == s + (if nullTerminate then ['\0'] else []) && available == old(available) - size)
              && (p.None? ==> available == old(available))
    {
      var size := |s| + (if nullTerminate then 1 else 0);
      if size > available {
        return None;
      }
      available := available - size;
      p := Some(s + (if nullTerminate then ['\0'] else []));
    }
  }

  class SmallString {
    /** Bytes in a pointer; `size_t` has as many. */
    const ptrSize: nat
    const wholeSize: nat
    const maxEmbeddedLength: nat
    /** `_length`, a 32-bit field. */
    var length: nat
    /** `_embedded`: the bytes after the length, up to the end of the object. */
    const embedded: array<char>
    /** The zone copy `_external` points to; empty for a null pointer. */
    var external: seq<char>

    /** The layout, and the bytes `getData` reaches are there to read. */
    predicate Valid()
      reads this
    {
      && (ptrSize == 4 || ptrSize == 8)
      && wholeSize >= BaseSize(ptrSize) && maxEmbeddedLength == wholeSize - 5
      && embedded.Length == wholeSize - 4
      && length < 0x1_0000_0000
      && (length > maxEmbeddedLength ==> length <= |external|)
    }

    /** SmallString(): a reset string. */
    constructor (n: nat, ptrSize: nat)
      requires ptrSize == 4 || ptrSize == 8
      ensures Valid() && fresh(embedded)
      ensures this.ptrSize == ptrSize && wholeSize == WholeSize(n, ptrSize)
      ensures maxEmbeddedLength == MaxEmbeddedLength(n, ptrSize)
      ensures IsEmpty() && IsEmbedded() && Data() == [] && external == []
    {
      this.ptrSize := ptrSize;
      wholeSize := WholeSize(n, ptrSize);
      maxEmbeddedLength := WholeSize(n, ptrSize) - 5;
      embedded := new char[WholeSize(n, ptrSize) - 4];
      length := 0;
      external := [];
      new;
      Reset();
    }

    /** reset(): both pointer-sized words of the base are nulled, which clears
        the length and the first inline bytes. */
    method Reset()
      requires Valid()
      modifies this, embedded
      ensures Valid() && length == 0 && external == []
      ensures forall i :: 0 <= i < BaseSize(ptrSize) - 4 ==> embedded[i] == '\0'
      ensures forall i :: BaseSize(ptrSize) - 4 <= i < embedded.Length ==> embedded[i] == old(embedded[i])
      ensures IsEmpty() && IsEmbedded() && Data() == []
    {
      forall i | 0 <= i < BaseSize(ptrSize) - 4 {
        embedded[i] := '\0';
      }
      length := 0;
      external := [];
    }

    function IsEmpty(): bool
      reads this
    {
      length == 0
    }

    function IsEmbedded(): bool
      reads this
    {
      length <= maxEmbeddedLength
    }

    function GetLength(): nat
      reads this
    {
      length
    }

    /** The `getLength()` characters at `getData()`: the inline bytes when the
        string is embedded, the zone copy otherwise. */
    function Data(): (d: seq<char>)
      requires Valid()
      reads this, embedded
      ensures |d| == length
    {
      if IsEmbedded() then embedded[..length] else external[..length]
    }

    /** setData: `len` characters of `str`, or all of them up to the first NUL
        when `len` is kNullTerminated. A string of at most kMaxEmbeddedLength
        characters is copied inline with a terminator; a longer one is copied,
        terminated, into the zone, and when the zone has no room the call fails
        with NoHeapMemory and nothing changes. The length is stored into the
        32-bit field. */
    method SetData(zone: Zone, str: seq<char>, len: nat) returns (r: Result<()>)
      requires Valid()
      requires len == NullTerminated(ptrSize) ==> '\0' in str
      requires len != NullTerminated(ptrSize) ==> len <= |str|
      modifies this, embedded, zone
      ensures Valid()
      ensures var n := if len == NullTerminated(ptrSize) then StrLen(str) else len;
              && (r.Err? <==> n > maxEmbeddedLength && n + 1 > old(zone.available))
              && (r.Err? ==> r.error == NoHeapMemory && length == old(length) && Data() == old(Data()))
              && (r.Ok? ==> length == n % 0x1_0000_0000)
              && (r.Ok? && n < 0x1_0000_0000 ==> GetLength() == n && Data() == str[..n])
              && (n <= maxEmbeddedLength ==> IsEmbedded() && embedded[..n] == str[..n] && embedded[n] == '\0')
              && (r.Ok? && n > maxEmbeddedLength ==> external == str[..n] + ['\0'])
    {
      var n := len;
      if n == NullTerminated(ptrSize) {
        n := StrLen(str);
      }
      if n <= maxEmbeddedLength {
        forall i | 0 <= i < n {
          embedded[i] := str[i];
        }
        embedded[n] := '\0';
      } else {
        var copy := zone.Dup(str[..n], true);
        if copy.None? {
          return Err(NoHeapMemory);
        }
        external := copy.value;
      }
      length := n % 0x1_0000_0000;
      return Ok(());
    }
  }
}
