/**
  The migration step of `load_credentials` (video_creator.py): a credential
  file in the legacy format, one that still holds an `access_token`, loses that
  key, gets the current scope list, and is written back; any other file is
  left as it is.
*/
module Credentials {

  /** A JSON value as `json.load` returns it. */
  datatype Json =
    | JNull
    | JBool(b: bool)
    | JNumber(n: int)
    | JString(s: string)
    | JArray(items: seq<Json>)
    | JObject(fields: map<string, Json>)

  const AccessTokenKey: string := "access_token"
  const ScopesKey: string := "scopes"

  /** SCOPES: upload access to the user's channel, nothing else. */
  const Scopes: Json := JArray([JString("https://www.googleapis.com/auth/youtube.upload")])

  /** The file needs migrating exactly when it still holds a short-lived access token. */
  predicate IsLegacy(data: map<string, Json>) {
    AccessTokenKey in data
  }

  /** `del credentials_data['access_token']` then `credentials_data['scopes'] = SCOPES`. */
  function Migrated(data: map<string, Json>): (r: map<string, Json>)
    ensures AccessTokenKey !in r
    ensures ScopesKey in r && r[ScopesKey] == Scopes
    ensures r.Keys == data.Keys - {AccessTokenKey} + {ScopesKey}
    ensures forall k :: k in data && k != AccessTokenKey && k != ScopesKey ==> r[k] == data[k]
  {
    (data - {AccessTokenKey})[ScopesKey := Scopes]
  }

  /** A migrated file is not legacy, so loading it again leaves it alone. */
  lemma MigrationIsFinal(data: map<string, Json>)
    ensures !IsLegacy(Migrated(data))
    ensures Migrated(Migrated(data)) == Migrated(data)
  {
  }

  /** The credential file `credential.json`, holding one JSON object. */
  class CredentialFile {
    var content: map<string, Json>

    constructor (content: map<string, Json>)
      ensures this.content == content
    {
      this.content := content;
    }

    /**
      The dictionary part of `load_credentials`: read the object, migrate it
      in place if it is legacy, and write it back only in that case.
      Building and refreshing the OAuth credentials from it is not modelled.
    */
    method Load() returns (data: map<string, Json>, rewritten: bool)
      modifies this
      ensures rewritten <==> IsLegacy(old(content))
      ensures data == if rewritten then Migrated(old(content)) else old(content)
      ensures content == data
    {
      var migrate := false;
      data := content;
      if AccessTokenKey in data {
        migrate := true;
        data := data - {AccessTokenKey};
        data := data[ScopesKey := Scopes];
      }
      if migrate {
        content := data;
      }
      rewritten := migrate;
    }
  }

  /** Loading twice: the second load finds the migrated file and rewrites nothing. */
  method LoadTwice(file: CredentialFile) returns (first: bool, second: bool)
    modifies file
    ensures !second
    ensures first <==> IsLegacy(old(file.content))
    ensures file.content == if first then Migrated(old(file.content)) else old(file.content)
    ensures !IsLegacy(file.content)
  {
    var data;
    data, first := file.Load();
    MigrationIsFinal(old(file.content));
    data, second := file.Load();
  }
}
