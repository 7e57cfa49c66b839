/**
 * The Firestore upload command (`firestore_upload.upload`), as its tests
 * fix it: a JSON file is read and written to the administrative Firestore
 * document `key`, either as it is or, with `encode_key`, with every
 * top-level key replaced by its Base64 encoding and every value tagged with
 * the original key under `_key`.
 */
module FirestoreUpload {
  import opened Values
  import Base64

  /** One call of `update_document`, and the file and mode `open` was called with. */
  datatype Upload = Upload(openedWith: (string, string), docType: ReportType, id: string, newData: Dict)

  /** A top-level value tagged with its key; a value that is not a dictionary cannot take the tag. */
  function Tagged(k: string, v: Value): (r: Result<Value>)
    ensures r.Ok? <==> v.Obj?
    ensures r.Ok? ==> r.value.Obj? && r.value.fields.Keys == v.fields.Keys + {"_key"}
    ensures r.Ok? ==> r.value.fields["_key"] == Str(k)
    ensures r.Ok? ==> forall f :: f in v.fields && f != "_key" ==> r.value.fields[f] == v.fields[f]
  {
    if v.Obj? then Ok(Obj(v.fields["_key" := Str(k)])) else Err(TypeError)
  }

  /** The key the encoded data files `k` under. */
  function KeyOf(k: string): string
  {
    Base64.EncodeText(k)
  }

  /** Every top-level key is Base64-encoded and every value tagged with its original key. */
  function EncodeKeys(data: Dict): (r: Result<Dict>)
    ensures r.Ok? <==> forall k :: k in data ==> data[k].Obj?
    ensures r.Ok? ==> r.value.Keys == set k | k in data :: KeyOf(k)
    ensures r.Ok? ==> forall k :: k in data ==> r.value[KeyOf(k)] == Tagged(k, data[k]).value
  {
    Base64.EncodeTextInjective();
    if forall k :: k in data ==> data[k].Obj? then
      Ok(map k | k in data :: KeyOf(k) := Tagged(k, data[k]).value)
    else Err(TypeError)
  }

  /** Each encoded key decodes to an original key, and its value carries that key under `_key`. */
  lemma EncodeKeysDecode(data: Dict)
    requires EncodeKeys(data).Ok?
    ensures var r := EncodeKeys(data).value;
      forall e :: e in r ==>
        Base64.DecodeText(e).Some? && Base64.DecodeText(e).value in data &&
        r[e].Obj? && r[e].fields["_key"] == Str(Base64.DecodeText(e).value)
  {
    var r := EncodeKeys(data).value;
    forall e | e in r
      ensures Base64.DecodeText(e).Some? && Base64.DecodeText(e).value in data &&
        r[e].Obj? && r[e].fields["_key"] == Str(Base64.DecodeText(e).value)
    {
      var k :| k in data && KeyOf(k) == e;
      Base64.DecodeEncodeText(k);
    }
  }

  /** Encoding keeps the number of top-level entries. */
  lemma EncodeKeysCount(data: Dict)
    requires EncodeKeys(data).Ok?
    ensures |EncodeKeys(data).value| == |data|
  {
    ImageCount(data.Keys);
    assert EncodeKeys(data).value.Keys == set k | k in data.Keys :: KeyOf(k);
  }

  lemma {:induction false} ImageCount(keys: set<string>)
    ensures |set k | k in keys :: KeyOf(k)| == |keys|
    decreases |keys|
  {
    if keys != {} {
      var k0 :| k0 in keys;
      var rest := keys - {k0};
      ImageCount(rest);
      Base64.EncodeTextInjective();
      assert (set k | k in keys :: KeyOf(k)) == (set k | k in rest :: KeyOf(k)) + {KeyOf(k0)};
      assert KeyOf(k0) !in (set k | k in rest :: KeyOf(k));
    }
  }

  /**
   * `upload(key, file, encode_key)`: the file is opened for reading, its
   * JSON `content` is written to the administrative document `key` (never
   * encoded), as it is or with its keys encoded.
   */
  function UploadCall(key: string, file: string, content: Dict, encodeKey: bool): (r: Result<Upload>)
    ensures !encodeKey ==> r == Ok(Upload((file, "r"), ADMIN, key, content))
    ensures encodeKey ==> (r.Ok? <==> EncodeKeys(content).Ok?)
    ensures encodeKey && r.Ok? ==> r.value == Upload((file, "r"), ADMIN, key, EncodeKeys(content).value)
  {
    if encodeKey then
      var data :- EncodeKeys(content);
      Ok(Upload((file, "r"), ADMIN, key, data))
    else Ok(Upload((file, "r"), ADMIN, key, content))
  }

  /** The unencoded test: the document `key` receives the file's content unchanged. */
  lemma GoodUnencoded()
    ensures var source := map["test_root" := Obj(map["a" := Str("A"), "b" := Str("B")])];
      UploadCall("key", "test.json", source, false) == Ok(Upload(("test.json", "r"), ADMIN, "key", source))
  {
  }

  lemma EncodeSingleKeys(k: string, v: Dict)
    ensures EncodeKeys(map[k := Obj(v)]).Ok?
    ensures EncodeKeys(map[k := Obj(v)]).value.Keys == {KeyOf(k)}
  {
    var data := map[k := Obj(v)];
    assert forall j :: j in data ==> data[j].Obj?;
    assert (set j | j in data :: KeyOf(j)) == {KeyOf(k)};
  }

  /** A single entry is encoded into a single entry. */
  lemma EncodeSingle(k: string, v: Dict)
    ensures EncodeKeys(map[k := Obj(v)]) == Ok(map[KeyOf(k) := Obj(v["_key" := Str(k)])])
  {
    EncodeSingleKeys(k, v);
    var r := EncodeKeys(map[k := Obj(v)]).value;
    assert r[KeyOf(k)] == Obj(v["_key" := Str(k)]);
    assert r == map[KeyOf(k) := Obj(v["_key" := Str(k)])];
  }

  /** The encoded test: 'test_root' becomes 'dGVzdF9yb290' and its value gains `_key`. */
  lemma GoodEncoded()
    ensures var source := map["test_root" := Obj(map["a" := Str("A"), "b" := Str("B")])];
      UploadCall("luke@skywalker.com", "test.json", source, true) ==
        Ok(Upload(("test.json", "r"), ADMIN, "luke@skywalker.com",
                  map["dGVzdF9yb290" := Obj(map["a" := Str("A"), "b" := Str("B"), "_key" := Str("test_root")])]))
  {
    Base64.TestRootKey();
    EncodeSingle("test_root", map["a" := Str("A"), "b" := Str("B")]);
  }
}
