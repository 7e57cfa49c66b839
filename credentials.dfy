/**
 * The cloud credential handler (`Credentials`): a user's OAuth tokens and
 * the project's client secret live in the `auth` document of the
 * administrative Firestore collection, under the user's encoded e-mail, and
 * in the older GCS bucket `{project}-report2bq-tokens`, which is read only
 * when Firestore has nothing.
 *
 * Firestore is a map from document id to document; GCS a map from bucket to
 * file name to the file's JSON value. `json.loads`/`json.dumps` are the
 * identity on these values.
 */
module Credentials {
  import opened Values
  import opened Text
  import Base64

  /** The administrative documents of Firestore, by id. */
  type Datastore = map<string, Dict>

  /** GCS: bucket name to file name to content. */
  type Storage = map<string, map<string, Value>>

  /**
   * `encode_key`: the Base64 of the e-mail's UTF-8 bytes. An e-mail that is
   * not a string has no `encode` (AttributeError).
   */
  function EncodeKey(email: Value): (r: Result<string>)
    ensures r.Ok? <==> email.Str?
    ensures r.Ok? ==> Base64.DecodeText(r.value) == Some(email.s)
  {
    if email.Str? then
      Base64.DecodeEncodeText(email.s);
      Ok(Base64.EncodeText(email.s))
    else Err(AttributeError("encode"))
  }

  /** Different e-mails are kept under different keys. */
  lemma EncodeKeyInjective(a: Value, b: Value)
    requires EncodeKey(a).Ok? && EncodeKey(b).Ok? && a != b
    ensures EncodeKey(a).value != EncodeKey(b).value
  {
    Base64.EncodeTextInjective();
  }

  /** `bucket`: `{project}-report2bq-tokens`. */
  function Bucket(project: Value): (r: string)
    ensures |r| >= 17 && r[|r| - 17..] == "-report2bq-tokens"
    ensures r[..|r| - 17] == Format(project)
  {
    Format(project) + "-report2bq-tokens"
  }

  /** `client_token`: `{email}_user_token.json`. */
  function ClientToken(email: Value): (r: string)
    ensures StartsWith(r, Format(email)) && r[|Format(email)|..] == "_user_token.json"
  {
    Format(email) + "_user_token.json"
  }

  /** `get_document(type=_ADMIN, id=id, key=key)`: the entry of the document, None when either is missing. */
  function GetDocument(ds: Datastore, id: string, key: string): (r: Value)
    ensures id in ds && key in ds[id] ==> r == ds[id][key]
    ensures !(id in ds && key in ds[id]) ==> r == Null
  {
    if id in ds then Get(ds[id], key) else Null
  }

  /** `Cloud_Storage.fetch_file`: a missing file raises. */
  function FetchFile(gcs: Storage, bucket: string, file: string): (r: Result<Value>)
    ensures r.Ok? <==> bucket in gcs && file in gcs[bucket]
    ensures r.Ok? ==> r.value == gcs[bucket][file]
  {
    if bucket in gcs && file in gcs[bucket] then Ok(gcs[bucket][file]) else Err(KeyError(file))
  }

  /** `project_credentials`: Firestore's `client_secret` when truthy, else GCS `client_secrets.json`. */
  function ProjectCredentials(ds: Datastore, gcs: Storage, project: Value): (r: Result<Value>)
    ensures Truthy(GetDocument(ds, "auth", "client_secret")) ==> r == Ok(ds["auth"]["client_secret"])
    ensures !Truthy(GetDocument(ds, "auth", "client_secret")) ==>
      r == FetchFile(gcs, Bucket(project), "client_secrets.json")
  {
    var stored := GetDocument(ds, "auth", "client_secret");
    if Truthy(stored) then Ok(stored) else FetchFile(gcs, Bucket(project), "client_secrets.json")
  }

  /**
   * `token_details`: Firestore's entry under the encoded e-mail when truthy,
   * else the user's token file in GCS.
   */
  function TokenDetails(ds: Datastore, gcs: Storage, project: Value, email: Value): (r: Result<Value>)
    ensures EncodeKey(email).Err? ==> r == Err(EncodeKey(email).error)
    ensures EncodeKey(email).Ok? && Truthy(GetDocument(ds, "auth", EncodeKey(email).value)) ==>
      r == Ok(ds["auth"][EncodeKey(email).value])
    ensures EncodeKey(email).Ok? && !Truthy(GetDocument(ds, "auth", EncodeKey(email).value)) ==>
      r == FetchFile(gcs, Bucket(project), ClientToken(email))
  {
    var key :- EncodeKey(email);
    var stored := GetDocument(ds, "auth", key);
    if Truthy(stored) then Ok(stored) else FetchFile(gcs, Bucket(project), ClientToken(email))
  }

  /** `update_document(type=_ADMIN, id='auth', new_data={key: json})`: the entry is set and the rest of the document kept. */
  function UpdateAuth(ds: Datastore, key: string, json: Value): (r: Datastore)
    ensures "auth" in r && key in r["auth"] && r["auth"][key] == json
    ensures forall k :: k in r["auth"] && k != key ==> "auth" in ds && k in ds["auth"] && r["auth"][k] == ds["auth"][k]
    ensures "auth" in ds ==> forall k :: k in ds["auth"] && k != key ==> k in r["auth"] && r["auth"][k] == ds["auth"][k]
    ensures forall id :: id in ds && id != "auth" ==> id in r && r[id] == ds[id]
    ensures r.Keys == ds.Keys + {"auth"}
  {
    UpdateDocument(ds, "auth", map[key := json])
  }

  /** The token record written to GCS: exactly the two tokens and the encoded key. */
  function RefreshRecord(token: Value, refreshToken: Value, key: string): (r: Dict)
    ensures r.Keys == {"access_token", "refresh_token", "_key"}
    ensures r["access_token"] == token && r["refresh_token"] == refreshToken && r["_key"] == Str(key)
  {
    map["access_token" := token, "refresh_token" := refreshToken, "_key" := Str(key)]
  }

  /** `Cloud_Storage.write_file`: the file is set and every other file kept. */
  function WriteFile(gcs: Storage, bucket: string, file: string, content: Value): (r: Storage)
    ensures FetchFile(r, bucket, file) == Ok(content)
    ensures forall b, f :: b in gcs && f in gcs[b] && (b, f) != (bucket, file) ==>
      FetchFile(r, b, f) == FetchFile(gcs, b, f)
    ensures forall b, f :: (b, f) != (bucket, file) && FetchFile(r, b, f).Ok? ==>
      FetchFile(r, b, f) == FetchFile(gcs, b, f)
  {
    gcs[bucket := (if bucket in gcs then gcs[bucket] else map[])[file := content]]
  }

  /** After storing, reading the user's tokens gives what was stored. */
  lemma StoreThenRead(ds: Datastore, gcs: Storage, project: Value, email: Value,
                      token: Value, refreshToken: Value, json: Value)
    requires EncodeKey(email).Ok?
    ensures var key := EncodeKey(email).value;
      var ds1 := UpdateAuth(ds, key, json);
      var gcs1 := WriteFile(gcs, Bucket(project), ClientToken(email), Obj(RefreshRecord(token, refreshToken, key)));
      && (Truthy(json) ==> TokenDetails(ds1, gcs1, project, email) == Ok(json))
      && (!Truthy(json) ==> TokenDetails(ds1, gcs1, project, email) == Ok(Obj(RefreshRecord(token, refreshToken, key))))
  {
  }

  /** Storing one user's tokens leaves every other user's Firestore entry as it was. */
  lemma StoreKeepsOthers(ds: Datastore, email: Value, other: Value, json: Value)
    requires EncodeKey(email).Ok? && EncodeKey(other).Ok? && email != other
    ensures var ds1 := UpdateAuth(ds, EncodeKey(email).value, json);
      GetDocument(ds1, "auth", EncodeKey(other).value) == GetDocument(ds, "auth", EncodeKey(other).value)
  {
    EncodeKeyInjective(email, other);
  }

  /** A user's credentials as the handler sees them: its e-mail and project, and the two stores. */
  class CredentialStore {
    var datastore: Datastore
    var gcs: Storage
    const email: Value
    const project: Value

    constructor(email: Value, project: Value, datastore: Datastore, gcs: Storage)
      ensures this.email == email && this.project == project
      ensures this.datastore == datastore && this.gcs == gcs
    {
      this.email := email;
      this.project := project;
      this.datastore := datastore;
      this.gcs := gcs;
    }

    /**
     * `store_credentials`: without an e-mail nothing is written; otherwise
     * Firestore's `auth` document gets the credential JSON under the
     * encoded e-mail and GCS the user's token file with the two tokens and
     * the key.
     */
    method StoreCredentials(token: Value, refreshToken: Value, json: Value) returns (r: Result<()>)
      modifies this
      ensures !Truthy(email) ==> r == Ok(()) && unchanged(this)
      ensures Truthy(email) && !email.Str? ==> r == Err(AttributeError("encode")) && unchanged(this)
      ensures Truthy(email) && email.Str? ==> (
        var key := EncodeKey(email).value;
        && r == Ok(())
        && datastore == UpdateAuth(old(datastore), key, json)
        && gcs == WriteFile(old(gcs), Bucket(project), ClientToken(email), Obj(RefreshRecord(token, refreshToken, key))))
    {
      if !Truthy(email) {
        return Ok(());
      }
      var encoded := EncodeKey(email);
      if encoded.Err? {
        return Err(encoded.error);
      }
      var key := encoded.value;
      var record := RefreshRecord(token, refreshToken, key);
      datastore := UpdateAuth(datastore, key, json);
      gcs := WriteFile(gcs, Bucket(project), ClientToken(email), Obj(record));
      r := Ok(());
    }
  }
}
