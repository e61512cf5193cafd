/**
 The byte cipher of the emulated file system, with C's signed `char` and truncating `%`.
 */
module Cipher {

  /** C's remainder: it has the sign of the dividend. */
  function Rem(a: int, m: int): int
    requires m > 0
  {
    if a >= 0 then a % m else -((-a) % m)
  }

  /** Storing an int in a signed char. */
  function ToChar(a: int): (c: int)
    ensures -128 <= c < 128 && (c - a) % 256 == 0
  {
    (a + 128) % 256 - 128
  }

  function EncryptByte(key: int, b: int): int { ToChar(Rem(b + key, 256)) }

  function DecryptByte(key: int, b: int): int {
    if b < key then ToChar(256 - key + b) else ToChar(b - key)
  }

  /** In place, as the code works. */
  method Encrypt(key: int, buf: array<int>, lo: int, size: int)
    requires 0 <= lo && 0 <= size && lo + size <= buf.Length
    modifies buf
    ensures forall i :: 0 <= i < buf.Length ==>
              buf[i] == if lo <= i < lo + size then EncryptByte(key, old(buf[i])) else old(buf[i])
  {
    var i := 0;
    while i < size
      invariant 0 <= i <= size
      invariant forall j :: 0 <= j < buf.Length ==>
                  buf[j] == if lo <= j < lo + i then EncryptByte(key, old(buf[j])) else old(buf[j])
    {
      buf[lo + i] := ToChar(Rem(buf[lo + i] + key, 256));
      i := i + 1;
    }
  }

  method Decrypt(key: int, buf: array<int>, lo: int, size: int)
    requires 0 <= lo && 0 <= size && lo + size <= buf.Length
    modifies buf
    ensures forall i :: 0 <= i < buf.Length ==>
              buf[i] == if lo <= i < lo + size then DecryptByte(key, old(buf[i])) else old(buf[i])
  {
    var i := 0;
    while i < size
      invariant 0 <= i <= size
      invariant forall j :: 0 <= j < buf.Length ==>
                  buf[j] == if lo <= j < lo + i then DecryptByte(key, old(buf[j])) else old(buf[j])
    {
      if buf[lo + i] < key {
        buf[lo + i] := ToChar(256 - key + buf[lo + i]);
      } else {
        buf[lo + i] := ToChar(buf[lo + i] - key);
      }
      i := i + 1;
    }
  }

  lemma CharIs(a: int) returns (q: int)
    ensures ToChar(a) == a + 256 * q
  {
    q := -((a + 128) / 256);
  }

  lemma RemIs(a: int) returns (q: int)
    ensures Rem(a, 256) == a + 256 * q
  {
    q := if a >= 0 then -(a / 256) else (-a) / 256;
  }

  /** Whatever the key, negative or larger than a byte, decryption undoes encryption. */
  lemma RoundTrip(key: int, b: int)
    requires -128 <= b < 128
    ensures DecryptByte(key, EncryptByte(key, b)) == b
  {
    hide ToChar, Rem;
    var q := RemIs(b + key);
    var r := CharIs(Rem(b + key, 256));
    var c := EncryptByte(key, b);
    var t := CharIs(if c < key then 256 - key + c else c - key);
    assert DecryptByte(key, c) == b + 256 * (q + r + t + if c < key then 1 else 0);
  }

  /** Encryption undoes decryption: a stored byte that is decrypted and encrypted again is as before. */
  lemma RoundTripBack(key: int, b: int)
    requires -128 <= b < 128
    ensures EncryptByte(key, DecryptByte(key, b)) == b
  {
    hide ToChar, Rem;
    var q := CharIs(if b < key then 256 - key + b else b - key);
    var c := DecryptByte(key, b);
    var r := RemIs(c + key);
    var t := CharIs(Rem(c + key, 256));
    assert EncryptByte(key, c) == b + 256 * (q + r + t + if b < key then 1 else 0);
  }

  /**
   `write_inode` on the block as it is stored: all of it is decrypted, one inode's bytes are replaced, all
   of it is encrypted. The stored bytes of the other inodes are as before.
   */
  method WriteInode(key: int, block: array<int>, lo: int, inode: seq<int>)
    requires 0 <= lo && lo + |inode| <= block.Length
    requires forall i :: 0 <= i < block.Length ==> -128 <= block[i] < 128
    requires forall i :: 0 <= i < |inode| ==> -128 <= inode[i] < 128
    modifies block
    ensures forall i :: 0 <= i < block.Length && !(lo <= i < lo + |inode|) ==> block[i] == old(block[i])
    ensures forall i :: 0 <= i < |inode| ==> DecryptByte(key, block[lo + i]) == inode[i]
  {
    hide EncryptByte, DecryptByte;
    Decrypt(key, block, 0, block.Length);
    label decrypted:
    var i := 0;
    while i < |inode|
      invariant 0 <= i <= |inode|
      invariant forall j :: 0 <= j < block.Length ==>
                  block[j] == if lo <= j < lo + i then inode[j - lo] else old@decrypted(block[j])
    {
      block[lo + i] := inode[i];
      i := i + 1;
    }
    Encrypt(key, block, 0, block.Length);
    forall j | 0 <= j < block.Length && !(lo <= j < lo + |inode|)
      ensures block[j] == old(block[j])
    {
      RoundTripBack(key, old(block[j]));
    }
    forall j | 0 <= j < |inode|
      ensures DecryptByte(key, block[lo + j]) == inode[j]
    {
      RoundTrip(key, inode[j]);
    }
  }

  /** `read_inode`: only the inode's bytes are decrypted, in a copy of the block. */
  method ReadInode(key: int, block: array<int>, lo: int, size: int) returns (inode: seq<int>)
    requires 0 <= lo && 0 <= size && lo + size <= block.Length
    ensures |inode| == size && forall i :: 0 <= i < size ==> inode[i] == DecryptByte(key, block[lo + i])
  {
    hide DecryptByte;
    var copy := new int[block.Length](i requires 0 <= i < block.Length reads block => block[i]);
    Decrypt(key, copy, lo, size);
    inode := copy[lo..lo + size];
  }

  /** An inode that was written is read back, and any other one is read as before. */
  method WriteThenRead(key: int, block: array<int>, lo: int, inode: seq<int>, lo': int)
    returns (before: seq<int>, after: seq<int>)
    requires 0 <= lo && lo + |inode| <= block.Length && 0 <= lo' && lo' + |inode| <= block.Length
    requires lo' == lo || lo' + |inode| <= lo || lo + |inode| <= lo'
    requires forall i :: 0 <= i < block.Length ==> -128 <= block[i] < 128
    requires forall i :: 0 <= i < |inode| ==> -128 <= inode[i] < 128
    modifies block
    ensures |before| == |after| == |inode| && after == if lo' == lo then inode else before
  {
    hide DecryptByte;
    before := ReadInode(key, block, lo', |inode|);
    WriteInode(key, block, lo, inode);
    after := ReadInode(key, block, lo', |inode|);
  }
}
