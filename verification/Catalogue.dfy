/**
 * The file server of nonstop_networking/server.c behind its sockets: a directory, a vector
 * of file names, a dictionary of sizes and a running total of name lengths, which have to
 * agree request after request.
 */
module Catalogue {
  import opened Basics

  const BLOCK_SIZE := 512
  const SLACK := 5   // how far past the announced size a PUT is read

  datatype Request =
    | Put(name: string, size: nat, sent: seq<byte>)   // the announced size and the bytes that follow
    | Get(name: string)
    | Delete(name: string)
    | List

  datatype Reply =
    | Done
    | File(size: nat, body: seq<byte>)
    | Names(announced: int, text: string)
    | BadSize
    | NoSuchFile

  // ---------- what the server stands for ----------

  // The directory after a request.
  function Served(files: map<string, seq<byte>>, r: Request): map<string, seq<byte>> {
    match r
    case Put(name, size, sent) => if |sent| == size then files[name := sent] else files - {name}
    case Delete(name) => files - {name}
    case _ => files
  }

  function Directory(rs: seq<Request>): map<string, seq<byte>> {
    if rs == [] then map[] else Served(Directory(rs[..|rs| - 1]), rs[|rs| - 1])
  }

  // A PUT of the wrong size over an existing file removes the file and leaves its name.
  predicate Spoils(files: map<string, seq<byte>>, r: Request) {
    r.Put? && |r.sent| != r.size && r.name in files
  }

  predicate SpoilsAt(rs: seq<Request>, i: nat)
    requires i < |rs|
  {
    Spoils(Directory(rs[..i]), rs[i])
  }

  function Spoilt(rs: seq<Request>): multiset<string> {
    if rs == [] then multiset{}
    else
      var n := |rs| - 1;
      Spoilt(rs[..n]) + if Spoils(Directory(rs[..n]), rs[n]) then multiset{rs[n].name} else multiset{}
  }

  function TotalLength(names: seq<string>): nat {
    if names == [] then 0 else TotalLength(names[..|names| - 1]) + |names[|names| - 1]|
  }

  function Join(names: seq<string>): string {
    if names == [] then ""
    else if |names| == 1 then names[0]
    else Join(names[..|names| - 1]) + "\n" + names[|names| - 1]
  }

  lemma {:induction false} JoinLength(names: seq<string>)
    ensures |Join(names)| == TotalLength(names) + if names == [] then 0 else |names| - 1
  {
    if |names| > 1 {
      JoinLength(names[..|names| - 1]);
    } else if |names| == 1 {
      assert names[..0] == [];
    }
  }

  // ---------- reading a listing back ----------

  // The parts of a text between newlines.
  function Split(text: string): (parts: seq<string>)
    ensures |parts| > 0
  {
    if text == "" then [""]
    else
      var rest := Split(text[1..]);
      if text[0] == '\n' then [""] + rest else [[text[0]] + rest[0]] + rest[1..]
  }

  // What a client makes of the text of a listing.
  function Lines(text: string): seq<string> {
    if text == "" then [] else Split(text)
  }

  // A name that fits in a line of its own.
  predicate Plain(name: string) {
    name != "" && '\n' !in name
  }

  lemma {:induction false} SplitPlain(name: string)
    requires '\n' !in name
    ensures Split(name) == [name]
  {
    if name != "" {
      SplitPlain(name[1..]);
      assert name == [name[0]] + name[1..];
    }
  }

  lemma {:induction false} SplitAppended(a: string, b: string)
    ensures Split(a + "\n" + b) == Split(a) + Split(b)
    decreases |a|
  {
    var t := a + "\n" + b;
    if a == "" {
      assert t[1..] == b;
    } else {
      SplitAppended(a[1..], b);
      assert t[1..] == a[1..] + "\n" + b && t[0] == a[0];
      FirstExtended(a[0], Split(a[1..]), Split(b));
    }
  }

  lemma FirstExtended(c: char, parts: seq<string>, more: seq<string>)
    requires |parts| > 0
    ensures [[c] + (parts + more)[0]] + (parts + more)[1..] == [[c] + parts[0]] + parts[1..] + more
    ensures [""] + (parts + more) == [""] + parts + more
  {
  }

  // The names that went into a listing come out of it again, in order.
  lemma {:induction false} SplitJoined(names: seq<string>)
    requires names != [] && forall i | 0 <= i < |names| :: '\n' !in names[i]
    ensures Split(Join(names)) == names
    decreases |names|
  {
    var n := |names| - 1;
    SplitPlain(names[n]);
    if n > 0 {
      SplitJoined(names[..n]);
      SplitAppended(Join(names[..n]), names[n]);
      assert names == names[..n] + [names[n]];
    } else {
      assert names == [names[0]];
    }
  }

  lemma LinesJoined(names: seq<string>)
    requires forall i | 0 <= i < |names| :: Plain(names[i])
    ensures Lines(Join(names)) == names
  {
    if names != [] {
      SplitJoined(names);
      JoinLength(names);
      assert |names[|names| - 1]| > 0;
    }
  }

  lemma {:induction false} TotalLengthErased(names: seq<string>, i: nat)
    requires i < |names|
    ensures TotalLength(names[..i] + names[i + 1..]) == TotalLength(names) - |names[i]|
    decreases |names|
  {
    var n := |names| - 1;
    if i == n {
      assert names[..i] + names[i + 1..] == names[..n];
    } else {
      TotalLengthErased(names[..n], i);
      var rest := names[..i] + names[i + 1..];
      assert rest[..|rest| - 1] == names[..n][..i] + names[..n][i + 1..];
    }
  }

  lemma MultisetErased(names: seq<string>, i: nat)
    requires i < |names|
    ensures multiset(names[..i] + names[i + 1..]) == multiset(names) - multiset{names[i]}
  {
    assert names == names[..i] + [names[i]] + names[i + 1..];
  }

  // The four records agree: every present file has a name and its size on record.
  ghost predicate Agree(files: map<string, seq<byte>>, names: seq<string>, sizes: map<string, nat>, filenameSize: int,
                        spoilt: multiset<string>) {
    Named(files, names, spoilt) && Sized(files, sizes) && filenameSize == TotalLength(names)
  }

  ghost predicate Named(files: map<string, seq<byte>>, names: seq<string>, spoilt: multiset<string>) {
    multiset(names) == multiset(files.Keys) + spoilt
  }

  ghost predicate Sized(files: map<string, seq<byte>>, sizes: map<string, nat>) {
    forall f | f in files :: f in sizes && sizes[f] == |files[f]|
  }

  lemma NewNameAgrees(files: map<string, seq<byte>>, names: seq<string>, spoilt: multiset<string>, name: string,
                      content: seq<byte>)
    requires Named(files, names, spoilt) && name !in files
    ensures Named(files[name := content], names + [name], spoilt)
    ensures TotalLength(names + [name]) == TotalLength(names) + |name|
  {
    assert files[name := content].Keys == files.Keys + {name};
    assert (names + [name])[..|names|] == names;
  }

  lemma OldNameAgrees(files: map<string, seq<byte>>, names: seq<string>, spoilt: multiset<string>, name: string,
                      content: seq<byte>)
    requires Named(files, names, spoilt) && name in files
    ensures Named(files[name := content], names, spoilt)
  {
    assert files[name := content].Keys == files.Keys;
  }

  lemma RemovedLeavesName(files: map<string, seq<byte>>, names: seq<string>, spoilt: multiset<string>, name: string)
    requires Named(files, names, spoilt)
    ensures Named(files - {name}, names, spoilt + if name in files then multiset{name} else multiset{})
  {
    if name in files {
      assert multiset(files.Keys) == multiset((files - {name}).Keys) + multiset{name};
    } else {
      assert files - {name} == files;
    }
  }

  lemma ErasedAgrees(files: map<string, seq<byte>>, names: seq<string>, spoilt: multiset<string>, i: nat)
    requires i < |names| && names[i] in files && Named(files, names, spoilt)
    ensures Named(files - {names[i]}, names[..i] + names[i + 1..], spoilt)
  {
    MultisetErased(names, i);
    assert multiset(files.Keys) == multiset((files - {names[i]}).Keys) + multiset{names[i]};
  }

  lemma NamedIsListed(files: map<string, seq<byte>>, names: seq<string>, spoilt: multiset<string>, name: string)
    requires Named(files, names, spoilt) && name in files
    ensures name in names
  {
    assert name in multiset(names);
  }

  // ---------- the server ----------

  class Server {
    var files: map<string, seq<byte>>   // the directory
    var names: seq<string>              // filename_vec
    var sizes: map<string, nat>         // client_dict_filesize
    var filenameSize: int               // filename_size
    ghost var spoilt: multiset<string>

    ghost predicate Valid()
      reads this
    {
      Agree(files, names, sizes, filenameSize, spoilt)
    }

    constructor Start()
      ensures Valid() && files == map[] && names == [] && spoilt == multiset{}
    {
      files, names, sizes, filenameSize, spoilt := map[], [], map[], 0, multiset{};
    }

    // The read loop of a PUT: at most SLACK bytes more than announced.
    method ReadBody(size: nat, sent: seq<byte>) returns (content: seq<byte>)
      ensures content == sent[..Min(size + SLACK, |sent|)]
    {
      content := [];
      var totalBytesRead := 0;
      var blocksize := BLOCK_SIZE;
      var maxSize := size + SLACK;
      while totalBytesRead < maxSize
        invariant totalBytesRead == |content| <= Min(maxSize, |sent|) && content == sent[..totalBytesRead]
        invariant 0 < blocksize
      {
        if maxSize - totalBytesRead < blocksize {
          blocksize := maxSize - totalBytesRead;
        }
        var bytesRead := Min(blocksize, |sent| - totalBytesRead);
        if bytesRead == 0 {
          break;
        }
        content := content + sent[totalBytesRead..totalBytesRead + bytesRead];
        totalBytesRead := totalBytesRead + bytesRead;
      }
    }

    method Put(name: string, size: nat, sent: seq<byte>) returns (reply: Reply)
      requires Valid()
      modifies this
      ensures Valid() && files == Served(old(files), Request.Put(name, size, sent))
      ensures reply == if |sent| == size then Done else BadSize
      ensures names == if reply == Done && name !in old(files) then old(names) + [name] else old(names)
      ensures spoilt == old(spoilt)
                        + if Spoils(old(files), Request.Put(name, size, sent)) then multiset{name} else multiset{}
    {
      hide Named, TotalLength;
      ghost var was := files;
      var isExisted := name in files;
      var content := ReadBody(size, sent);
      files := files[name := content];
      if |content| != size {
        RemovedLeavesName(was, names, spoilt, name);
        files := files - {name};
        spoilt := spoilt + if isExisted then multiset{name} else multiset{};
        assert files == was - {name};
        return BadSize;
      }
      assert content == sent;
      if !isExisted {
        NewNameAgrees(was, names, spoilt, name, sent);
        names := names + [name];
        filenameSize := filenameSize + |name|;
      } else {
        OldNameAgrees(was, names, spoilt, name, sent);
      }
      sizes := sizes[name := size];
      reply := Done;
    }

    // The loop of localfile_write: what reaches the socket.
    method LocalfileWrite(file: seq<byte>, size: nat) returns (body: seq<byte>)
      ensures body == file[..Min(size, |file|)]
    {
      var fileSize := size;
      var blockSize := BLOCK_SIZE;
      body := [];
      while fileSize > 0
        invariant 0 <= fileSize <= size && |body| == size - fileSize <= |file| && body == file[..|body|]
        invariant 0 < blockSize
      {
        blockSize := Min(fileSize, blockSize);
        var readNum := Min(blockSize, |file| - |body|);
        if readNum == 0 {
          break;
        }
        body := body + file[|body|..|body| + readNum];
        fileSize := fileSize - readNum;
      }
    }

    method Get(name: string) returns (reply: Reply)
      requires Valid()
      ensures reply == if name in files then File(|files[name]|, files[name]) else NoSuchFile
    {
      if name !in files {
        return NoSuchFile;
      }
      var size := sizes[name];
      var body := LocalfileWrite(files[name], size);
      reply := File(size, body);
    }

    method List() returns (reply: Reply)
      requires Valid()
      ensures reply == Names(|Join(names)|, Join(names))
    {
      var size := |names| + filenameSize;
      if |names| > 0 {
        size := size - 1;
      }
      var text := "";
      var i := 0;
      while i < |names|
        invariant 0 <= i <= |names|
        invariant text == Join(names[..i]) + if 0 < i < |names| then "\n" else ""
      {
        text := text + names[i];
        assert names[..i + 1][..i] == names[..i];
        if i + 1 != |names| {
          text := text + "\n";
        }
        i := i + 1;
      }
      assert names[..|names|] == names;
      JoinLength(names);
      reply := Names(size, text);
    }

    method Delete(name: string) returns (reply: Reply)
      requires Valid()
      modifies this
      ensures Valid() && files == Served(old(files), Request.Delete(name)) && spoilt == old(spoilt)
      ensures reply == if name in old(files) then Done else NoSuchFile
      ensures if name in old(files) then
                exists i :: 0 <= i < |old(names)| && old(names)[i] == name && name !in old(names)[..i]
                            && names == old(names)[..i] + old(names)[i + 1..]
              else names == old(names)
    {
      hide Named, TotalLength;
      if name !in files {
        assert files - {name} == files;
        return NoSuchFile;
      }
      NamedIsListed(files, names, spoilt, name);
      ghost var was := files;
      files := files - {name};
      var i := 0;
      while i < |names| && names[i] != name
        invariant 0 <= i <= |names| && name !in names[..i]
      {
        i := i + 1;
      }
      reply := NoSuchFile;
      if i < |names| {
        ErasedAgrees(was, names, spoilt, i);
        TotalLengthErased(names, i);
        filenameSize := filenameSize - |name|;
        sizes := sizes - {name};
        names := names[..i] + names[i + 1..];
        reply := Done;
      }
    }

    method Serve(r: Request) returns (reply: Reply)
      requires Valid()
      modifies this
      ensures Valid() && files == Served(old(files), r)
      ensures spoilt == old(spoilt) + if Spoils(old(files), r) then multiset{r.name} else multiset{}
      ensures Answers(old(files), old(names), r, reply)
    {
      hide Agree;
      match r {
        case Put(name, size, sent) => reply := Put(name, size, sent);
        case Get(name) => reply := Get(name);
        case Delete(name) => reply := Delete(name);
        case List => reply := List();
      }
    }

    // Any requests, one after the other, from the empty directory.
    method Run(rs: seq<Request>) returns (replies: seq<Reply>)
      requires Valid() && files == map[] && spoilt == multiset{}
      modifies this
      ensures Valid() && files == Directory(rs) && Listing(rs, names)
      ensures |replies| == |rs| && forall i | 0 <= i < |rs| :: Answered(rs[..i], rs[i], replies[i])
    {
      hide Agree, Answers, Answered, Served, Spoils, Directory, Spoilt, Listing;
      replies := [];
      var i := 0;
      Unserved();
      assert rs[..0] == [];
      while i < |rs|
        invariant 0 <= i <= |rs| && Valid() && files == Directory(rs[..i]) && spoilt == Spoilt(rs[..i])
        invariant |replies| == i && forall k | 0 <= k < i :: Answered(rs[..k], rs[k], replies[k])
      {
        AgreeLists(rs[..i], files, names, sizes, filenameSize, spoilt);
        ghost var l := names;
        var reply := Serve(rs[i]);
        GivesAnswer(rs[..i], l, rs[i], reply);
        OneMore(rs, i);
        replies := replies + [reply];
        i := i + 1;
      }
      assert rs[..|rs|] == rs;
      AgreeLists(rs, files, names, sizes, filenameSize, spoilt);
    }
  }

  lemma Unserved()
    ensures Directory([]) == map[] && Spoilt([]) == multiset{}
  {
  }

  lemma OneMore(rs: seq<Request>, i: nat)
    requires i < |rs|
    ensures Directory(rs[..i + 1]) == Served(Directory(rs[..i]), rs[i])
    ensures Spoilt(rs[..i + 1])
            == Spoilt(rs[..i]) + if Spoils(Directory(rs[..i]), rs[i]) then multiset{rs[i].name} else multiset{}
  {
    assert rs[..i + 1][..i] == rs[..i];
  }

  lemma GivesAnswer(before: seq<Request>, l: seq<string>, r: Request, reply: Reply)
    requires Listing(before, l) && Answers(Directory(before), l, r, reply)
    ensures Answered(before, r, reply)
  {
  }

  // What a client is sent for a request.
  predicate Answers(files: map<string, seq<byte>>, names: seq<string>, r: Request, reply: Reply) {
    match r
    case Put(name, size, sent) => reply == if |sent| == size then Done else BadSize
    case Get(name) => reply == if name in files then File(|files[name]|, files[name]) else NoSuchFile
    case Delete(name) => reply == if name in files then Done else NoSuchFile
    case List => reply == Names(|Join(names)|, Join(names))
  }

  ghost predicate Answered(before: seq<Request>, r: Request, reply: Reply) {
    exists l: seq<string> :: Listing(before, l) && Answers(Directory(before), l, r, reply)
  }

  lemma AgreeLists(rs: seq<Request>, files: map<string, seq<byte>>, names: seq<string>, sizes: map<string, nat>,
                   filenameSize: int, spoilt: multiset<string>)
    requires Agree(files, names, sizes, filenameSize, spoilt) && files == Directory(rs) && spoilt == Spoilt(rs)
    ensures Listing(rs, names)
  {
  }

  // What the name vector may hold after the requests: each file present once, and besides
  // that one leftover for every spoiling PUT.
  ghost predicate Listing(rs: seq<Request>, l: seq<string>) {
    multiset(l) == multiset(Directory(rs).Keys) + Spoilt(rs)
  }

  // LIST is faithful: it names each present file once and nothing else.
  ghost predicate Faithful(rs: seq<Request>, l: seq<string>) {
    multiset(l) == multiset(Directory(rs).Keys)
  }

  lemma {:induction false} SpoiltExactly(rs: seq<Request>)
    ensures Spoilt(rs) != multiset{} <==> exists i :: 0 <= i < |rs| && SpoilsAt(rs, i)
    decreases rs
  {
    hide Directory;
    if rs != [] {
      var n := |rs| - 1;
      SpoiltExactly(rs[..n]);
      forall i | 0 <= i < n
        ensures SpoilsAt(rs[..n], i) <==> SpoilsAt(rs, i)
      {
        assert rs[..n][..i] == rs[..i];
      }
      if SpoilsAt(rs, n) {
        assert rs[n].name in Spoilt(rs);
      } else {
        assert Spoilt(rs) == Spoilt(rs[..n]);
      }
    }
  }

  // Exactly when LIST tells the truth: as long as no PUT of the wrong size has hit a file
  // that existed. After one has, no later request makes LIST right again.
  lemma ListFaithfulExactly(rs: seq<Request>, l: seq<string>)
    requires Listing(rs, l)
    ensures Faithful(rs, l) <==> forall i | 0 <= i < |rs| :: !SpoilsAt(rs, i)
  {
    SpoiltExactly(rs);
    var keys := multiset(Directory(rs).Keys);
    if keys + Spoilt(rs) == keys {
      forall x
        ensures Spoilt(rs)[x] == 0
      {
        assert (keys + Spoilt(rs))[x] == keys[x] + Spoilt(rs)[x];
      }
      assert Spoilt(rs) == multiset{};
    }
  }

  // Even then, nothing that is there is missing from the list.
  lemma PresentFilesAreListed(rs: seq<Request>, l: seq<string>, name: string)
    requires Listing(rs, l) && name in Directory(rs)
    ensures name in l
  {
    assert name in multiset(l);
  }

  // Every name in the vector came with a PUT.
  lemma {:induction false} ListedWasPut(rs: seq<Request>, name: string)
    requires name in Directory(rs) || name in Spoilt(rs)
    ensures exists i :: 0 <= i < |rs| && rs[i].Put? && rs[i].name == name
    decreases rs
  {
    if rs != [] {
      var n := |rs| - 1;
      if !(rs[n].Put? && rs[n].name == name) {
        ListedWasPut(rs[..n], name);
        var i :| 0 <= i < n && rs[..n][i].Put? && rs[..n][i].name == name;
        assert rs[i] == rs[..n][i];
      }
    }
  }

  // What a client reads from the reply to a LIST are the names in the vector.
  lemma ListIsReadBack(rs: seq<Request>, reply: Reply)
    requires Answered(rs, List, reply) && forall i | 0 <= i < |rs| && rs[i].Put? :: Plain(rs[i].name)
    ensures reply.Names? && reply.announced == |reply.text| && Listing(rs, Lines(reply.text))
  {
    var l: seq<string> :| Listing(rs, l) && Answers(Directory(rs), l, List, reply);
    forall k | 0 <= k < |l|
      ensures Plain(l[k])
    {
      assert l[k] in multiset(l);
      ListedWasPut(rs, l[k]);
    }
    LinesJoined(l);
  }

  // So exactly then a client is told each file present once and nothing else.
  lemma ClientListExactly(rs: seq<Request>, reply: Reply)
    requires Answered(rs, List, reply) && forall i | 0 <= i < |rs| && rs[i].Put? :: Plain(rs[i].name)
    ensures reply.Names? && (multiset(Lines(reply.text)) == multiset(Directory(rs).Keys)
                             <==> forall i | 0 <= i < |rs| :: !SpoilsAt(rs, i))
    ensures reply.Names? && forall name | name in Directory(rs) :: name in Lines(reply.text)
  {
    ListIsReadBack(rs, reply);
    var l := Lines(reply.text);
    ListFaithfulExactly(rs, l);
    forall name | name in Directory(rs)
      ensures name in l
    {
      PresentFilesAreListed(rs, l, name);
    }
  }

  // The leftover in full: a file put, then put again with the wrong size.
  lemma OneSpoilingPut(name: string, body: seq<byte>, size: nat, sent: seq<byte>, l: seq<string>)
    requires |sent| != size
    requires Listing([Put(name, |body|, body), Put(name, size, sent)], l)
    ensures name !in Directory([Put(name, |body|, body), Put(name, size, sent)])
    ensures l == [name]
  {
    var rs := [Put(name, |body|, body), Put(name, size, sent)];
    assert rs[..1] == [Put(name, |body|, body)] && rs[..1][..0] == [];
    assert Directory(rs[..1]) == map[name := body] && Spoilt(rs[..1]) == multiset{};
    assert multiset(l) == multiset{name};
    assert |multiset(l)| == |l| == 1;
    assert l[0] in multiset(l);
  }

  predicate Touches(r: Request, name: string) {
    (r.Put? || r.Delete?) && r.name == name
  }

  // A GET finds exactly the body of the last PUT of that name, if that PUT had the right
  // size and nothing has deleted the file since; no other request matters.
  lemma {:induction false} LastPutDecides(rs: seq<Request>, i: nat, name: string)
    requires i < |rs| && Touches(rs[i], name) && forall j | i < j < |rs| :: !Touches(rs[j], name)
    ensures name in Directory(rs) <==> rs[i].Put? && |rs[i].sent| == rs[i].size
    ensures name in Directory(rs) ==> Directory(rs)[name] == rs[i].sent
    decreases rs
  {
    var n := |rs| - 1;
    if i < n {
      LastPutDecides(rs[..n], i, name);
      assert rs[..n][i] == rs[i];
    }
  }

  // And that is what the client of a GET is sent.
  lemma GetAnswersLastPut(rs: seq<Request>, i: nat, name: string, reply: Reply)
    requires i < |rs| && Touches(rs[i], name) && forall j | i < j < |rs| :: !Touches(rs[j], name)
    requires Answered(rs, Get(name), reply)
    ensures if rs[i].Put? && |rs[i].sent| == rs[i].size then reply == File(rs[i].size, rs[i].sent)
            else reply == NoSuchFile
  {
    LastPutDecides(rs, i, name);
    hide Directory, Listing;
    var l: seq<string> :| Listing(rs, l) && Answers(Directory(rs), l, Get(name), reply);
  }

  // A name that no PUT or DELETE has mentioned is not there.
  lemma {:induction false} NeverPutNeverThere(rs: seq<Request>, name: string)
    requires forall j | 0 <= j < |rs| :: !Touches(rs[j], name)
    ensures name !in Directory(rs)
    decreases rs
  {
    if rs != [] {
      NeverPutNeverThere(rs[..|rs| - 1], name);
    }
  }
}
