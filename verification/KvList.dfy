/** Settings packed as NUL-terminated strings in one buffer, and the iterator over it (src/kv_list.c). */
module KvList {
  import opened Values
  import opened OptionGrammar
  import opened OptionParser

  /** What can be packed: C strings, and no value missing. */
  predicate Packable(list: seq<Setting>) {
    forall i :: 0 <= i < |list| ==> list[i].value.Some? && NoNul(list[i].name) && NoNul(list[i].value.value)
  }

  function PackOne(x: Setting): string
    requires x.value.Some?
  {
    x.name + [Nul] + x.value.value + [Nul]
  }

  function Pack(list: seq<Setting>): string
    requires Packable(list)
  {
    if list == [] then [] else PackOne(list[0]) + Pack(list[1..])
  }

  lemma {:induction false} PackHead(list: seq<Setting>)
    requires Packable(list) && list != []
    ensures Packable(list[1..]) && list[0].value.Some? && NoNul(list[0].name) && NoNul(list[0].value.value)
    ensures Pack(list) == list[0].name + [Nul] + list[0].value.value + [Nul] + Pack(list[1..])
  {
  }

  lemma {:induction false} PackAppend(list: seq<Setting>, x: Setting)
    requires Packable(list + [x]) && x.value.Some?
    ensures Packable(list) && Pack(list + [x]) == Pack(list) + PackOne(x)
  {
    assert forall i :: 0 <= i < |list| ==> (list + [x])[i] == list[i];
    assert (list + [x])[|list|] == x;
    if list == [] {
      assert list + [x] == [x] && Pack([x]) == PackOne(x) + Pack([]);
    } else {
      assert (list + [x])[1..] == list[1..] + [x];
      assert Packable((list + [x])[1..]);
      PackAppend(list[1..], x);
    }
  }

  class List {
    const length: nat
    const data: array<char>

    constructor (length: nat, data: array<char>)
      ensures this.length == length && this.data == data
    {
      this.length, this.data := length, data;
    }
  }

  /** memcpy of a C string with its terminator. */
  method CopyString(data: array<char>, at: nat, s: string) returns (len: nat)
    requires at + |s| + 1 <= data.Length
    modifies data
    ensures len == |s| + 1 && data[..at + len] == old(data[..at]) + s + [Nul]
  {
    var i := 0;
    while i < |s|
      invariant 0 <= i <= |s| && data[..at + i] == old(data[..at]) + s[..i]
    {
      data[at + i] := s[i];
      assert data[..at + i + 1] == data[..at + i] + [s[i]];
      i := i + 1;
    }
    data[at + |s|] := Nul;
    assert data[..at + |s| + 1] == data[..at + |s|] + [Nul];
    len := |s| + 1;
  }

  /** new_kv_list_from_pg_list: the size counted first is the size filled. */
  method NewKvList(list: seq<Setting>) returns (kv: List)
    requires Packable(list)
    ensures fresh(kv) && fresh(kv.data) && kv.length == |list| && kv.data[..] == Pack(list)
  {
    var size, i := 0, 0;
    while i < |list|
      invariant 0 <= i <= |list| && Packable(list[..i]) && size == |Pack(list[..i])|
    {
      assert list[..i + 1] == list[..i] + [list[i]];
      PackAppend(list[..i], list[i]);
      size := size + 2 + |list[i].name| + |list[i].value.value|;
      i := i + 1;
    }
    assert list[..i] == list;
    var data := new char[size];
    var used: nat;
    used, i := 0, 0;
    while i < |list|
      invariant 0 <= i <= |list| && used <= size && Packable(list[..i]) && data[..used] == Pack(list[..i])
    {
      Prefix(list, i);
      used := FillOne(data, used, list[i]);
      i := i + 1;
    }
    assert list[..i] == list && used == size;
    kv := new List(|list|, data);
  }

  /** Each prefix fits what is allocated for the whole. */
  lemma {:induction false} Prefix(list: seq<Setting>, i: nat)
    requires Packable(list) && i < |list|
    ensures Packable(list[..i]) && Packable(list[..i + 1]) && Pack(list[..i + 1]) == Pack(list[..i]) + PackOne(list[i])
    ensures |Pack(list[..i + 1])| <= |Pack(list)|
    decreases |list| - i
  {
    assert list[..i + 1] == list[..i] + [list[i]];
    PackAppend(list[..i], list[i]);
    if i + 1 < |list| {
      Prefix(list, i + 1);
    } else {
      assert list[..i + 1] == list;
    }
  }

  method FillOne(data: array<char>, used: nat, x: Setting) returns (n: nat)
    requires x.value.Some? && used + |PackOne(x)| <= data.Length
    modifies data
    ensures n == used + |PackOne(x)| && data[..n] == old(data[..used]) + PackOne(x)
  {
    var len := CopyString(data, used, x.name);
    n := used + len;
    len := CopyString(data, n, x.value.value);
    n := n + len;
    assert old(data[..used]) + PackOne(x) == old(data[..used]) + x.name + [Nul] + x.value.value + [Nul];
  }

  /** strlen of the string stored at i, given what it is. */
  method Strlen(data: array<char>, i: nat, ghost s: string) returns (n: nat)
    requires Stored(data, i, s)
    ensures n == |s|
  {
    n := 0;
    while data[i + n] != Nul
      invariant 0 <= n <= |s|
      decreases |s| - n
    {
      assert data[i + n] == s[n] || n == |s|;
      n := n + 1;
    }
  }

  /** kv_iter. left is what it has not yet visited. */
  class Iterator {
    const list: List?
    var togo: nat
    var next: nat
    var name: nat
    var value: nat
    ghost var left: seq<Setting>

    ghost predicate Valid()
      reads this, list, if list == null then {} else {list.data}
    {
      togo == |left| && Packable(left) &&
      if list == null then left == [] else next <= list.data.Length && list.data[next..] == Pack(left)
    }

    /** name and value point at those of x. */
    ghost predicate Shows(x: Setting)
      reads this, list, if list == null then {} else {list.data}
    {
      list != null && x.value.Some? && Stored(list.data, name, x.name) && Stored(list.data, value, x.value.value)
    }

    /** new_kv_iter: the list may be NULL. */
    constructor (list: List?, ghost contents: seq<Setting>)
      requires Packable(contents)
      requires if list == null then contents == [] else list.length == |contents| && list.data[..] == Pack(contents)
      ensures this.list == list && Valid() && left == contents
    {
      this.list, left := list, contents;
      togo := if list == null then 0 else list.length;
      next, name, value := 0, 0, 0;
      new;
      if list != null {
        assert list.data[0..] == list.data[..];
      }
    }

    /** kv_iter_next: steps over one pair, in order, and never past the end of the data. */
    method Next() returns (more: bool)
      requires Valid()
      modifies this`togo, this`next, this`name, this`value, this`left
      ensures Valid() && more == (old(left) != [])
      ensures left == if more then old(left)[1..] else []
      ensures more ==> Shows(old(left)[0])
    {
      if togo == 0 {
        return false;
      }
      togo := togo - 1;
      ghost var x := left[0];
      PackHead(left);
      SplitPair(list.data, next, x, Pack(left[1..]));
      name := next;
      var n := Strlen(list.data, name, x.name);
      value := name + n + 1;
      n := Strlen(list.data, value, x.value.value);
      next := value + n + 1;
      left := left[1..];
      return true;
    }
  }

  lemma {:induction false} SplitPair(data: array<char>, next: nat, x: Setting, tail: string)
    requires next <= data.Length && x.value.Some? && NoNul(x.name) && NoNul(x.value.value)
    requires data[next..] == x.name + [Nul] + x.value.value + [Nul] + tail
    ensures Stored(data, next, x.name) && Stored(data, next + |x.name| + 1, x.value.value)
    ensures next + |PackOne(x)| <= data.Length && data[next + |PackOne(x)|..] == tail
  {
    var d, v := data[next..], next + |x.name| + 1;
    assert d[..|x.name|] == x.name && d[|x.name|] == Nul;
    assert data[next..next + |x.name|] == d[..|x.name|] && data[next + |x.name|] == d[|x.name|];
    assert d[|x.name| + 1..][..|x.value.value|] == x.value.value && d[|x.name| + 1 + |x.value.value|] == Nul;
    assert data[v..v + |x.value.value|] == d[|x.name| + 1..][..|x.value.value|];
    assert data[v + |x.value.value|] == d[|x.name| + 1 + |x.value.value|];
    assert data[next + |PackOne(x)|..] == d[|PackOne(x)|..] == tail;
  }

  method MakeSetting(it: Iterator, ghost x: Setting) returns (s: Setting)
    requires it.Shows(x)
    ensures s == x
  {
    var n := Duplicate(it.list.data, it.name, x.name);
    var v := Duplicate(it.list.data, it.value, x.value.value);
    s := Setting(n, Some(v));
  }

  /** The loop of session_settings over a packed list. */
  method ReadList(kv: List?, ghost contents: seq<Setting>) returns (settings: seq<Setting>)
    requires Packable(contents)
    requires if kv == null then contents == [] else kv.length == |contents| && kv.data[..] == Pack(contents)
    ensures settings == contents
  {
    settings := [];
    var it := new Iterator(kv, contents);
    var more := it.Next();
    ghost var todo := contents;
    while more
      invariant it.Valid() && it.list == kv && contents == settings + todo && more == (todo != [])
      invariant more ==> it.left == todo[1..] && it.Shows(todo[0])
      decreases |todo|
    {
      var x := MakeSetting(it, todo[0]);
      Shift(settings, todo);
      settings := settings + [x];
      more := it.Next();
      todo := todo[1..];
    }
  }

  lemma {:induction false} Shift(done: seq<Setting>, todo: seq<Setting>)
    requires todo != []
    ensures done + [todo[0]] + todo[1..] == done + todo
  {
  }

  // ---------- the whole way ----------

  lemma {:induction false} EscapeNoNul(quoted: bool, v: string)
    requires NoNul(v)
    ensures NoNul(Escape(quoted, v))
  {
    if v != [] {
      EscapeNoNul(quoted, v[1..]);
    }
  }

  lemma {:induction false} PrintNoNul(xs: seq<Item>)
    requires forall i :: 0 <= i < |xs| ==> Printable(xs[i]) && NoNul(xs[i].name) && NoNul(xs[i].value)
    ensures NoNul(Print(xs)) && Packable(Settings(xs))
  {
    if xs != [] {
      EscapeNoNul(xs[0].quoted, xs[0].value);
      PrintNoNul(xs[1..]);
      assert NoNul(PrintValue(xs[0]));
      assert NoNul(xs[0].before) && NoNul(xs[0].after) && NoNul(PrintItem(xs[0]));
    }
  }

  /** A printed setting that survives the way: C strings, and no blank between an unquoted value and its comma. */
  predicate Carried(x: Item) {
    Printable(x) && (x.quoted || x.before == []) && NoNul(x.name) && NoNul(x.value)
  }

  predicate AllCarried(xs: seq<Item>) {
    forall i :: 0 <= i < |xs| ==> Carried(xs[i])
  }

  /** Printed, parsed in place, packed and iterated, every list of settings comes back as it was. */
  method RoundTrip(xs: seq<Item>) returns (back: seq<Setting>)
    requires AllCarried(xs)
    ensures back == Settings(xs)
  {
    PrintNoNul(xs);
    ParsePrint(xs);
    var parsed := ParseOptions(Print(xs));
    var kv := NewKvList(parsed.settings);
    back := ReadList(kv, Settings(xs));
  }
}
