/** The two path expressions of the bridge: the FTP destination of an upload or a
    removal (index.js, lines 45-47 and 138-140) and the public download URL shown
    to the user (lines 109-111). Both have the shape `prefix ? `${prefix}/${name}` : name`
    over an environment variable that may be unset or empty. */
module Paths {
  import opened Wrappers
  import opened JsValues

  /** The two environment variables involved, as JavaScript reads them
      (`process.env.X` is `undefined` when unset). */
  datatype Env = Env(ftpPath: Option<string>, publicUrl: Option<string>)

  /** `prefix ? `${prefix}/${name}` : name`. The result is a JavaScript value: when
      the prefix is falsy it is `name` itself, which may be `undefined`. */
  function JoinIfSet(prefix: Option<string>, name: Option<string>): (r: Option<string>)
    // a defined name always gives a defined result
    ensures name.Some? ==> r.Some?
    // with a truthy prefix the result is the prefix, a slash, and the rendered name
    ensures Truthy(prefix) ==> r.Some? && |r.value| == |prefix.value| + 1 + |Render(name)|
    ensures Truthy(prefix) ==>
              && r.value[..|prefix.value|] == prefix.value
              && r.value[|prefix.value|] == '/'
              && r.value[|prefix.value| + 1..] == Render(name)
    // with a falsy prefix (unset or "") the name passes through untouched
    ensures !Truthy(prefix) ==> r == name
  {
    if Truthy(prefix) then Some(prefix.value + "/" + Render(name)) else name
  }

  /** Inverse of `JoinIfSet` on its rendered result: recovers the name from a path
      built under the same prefix, or nothing when the path has another shape. */
  function StripPrefix(prefix: Option<string>, path: string): (name: Option<string>)
    ensures name.Some? ==> |name.value| <= |path| && name.value == path[|path| - |name.value|..]
  {
    if !Truthy(prefix) then Some(path)
    else if |prefix.value| + 1 <= |path| && path[..|prefix.value| + 1] == prefix.value + "/"
    then Some(path[|prefix.value| + 1..])
    else None
  }

  /** FTP destination of an upload: `FTP_PATH/filename`, or the filename alone. */
  function UploadDest(env: Env, filename: Option<string>): (dest: Option<string>)
    // with FTP_PATH set the destination is a string under "FTP_PATH/" that strips back to the name
    ensures Truthy(env.ftpPath) ==> dest.Some? && StripPrefix(env.ftpPath, dest.value) == Some(Render(filename))
    // without it the destination is the name value itself, possibly undefined
    ensures !Truthy(env.ftpPath) ==> dest == filename
  {
    StripJoin(env.ftpPath, filename);
    JoinIfSet(env.ftpPath, filename)
  }

  /** FTP path handed to `remove` by the delete handler, whose filename is always a
      string (a regular-expression capture). */
  function DeleteDest(env: Env, filename: string): (dest: string)
    ensures UploadDest(env, Some(filename)) == Some(dest)
    ensures StripPrefix(env.ftpPath, dest) == Some(filename)
  {
    JoinIfSet(env.ftpPath, Some(filename)).value
  }

  /** The download URL in the success reply: `FTP_PUBLIC_URL/filename`, or the
      filename alone; `undefined` is rendered, since it only appears in a message. */
  function PublicUrl(env: Env, filename: Option<string>): (url: string)
    ensures |Render(filename)| <= |url|
    ensures url[|url| - |Render(filename)|..] == Render(filename)
    ensures Truthy(env.publicUrl) ==> url == env.publicUrl.value + "/" + Render(filename)
    ensures !Truthy(env.publicUrl) ==> url == Render(filename)
  {
    Render(JoinIfSet(env.publicUrl, filename))
  }

  /** Stripping the prefix from a rendered join gives back the rendered name: the
      destination path determines the file name. */
  lemma StripJoin(prefix: Option<string>, name: Option<string>)
    ensures StripPrefix(prefix, Render(JoinIfSet(prefix, name))) == Some(Render(name))
  {
    if Truthy(prefix) {
      var p := Render(JoinIfSet(prefix, name));
      assert p[..|prefix.value| + 1] == prefix.value + "/";
    }
  }

  /** An empty environment variable behaves exactly like an unset one. */
  lemma EmptySettingIsUnset(env: Env, filename: Option<string>)
    ensures UploadDest(env.(ftpPath := Some("")), filename) == UploadDest(env.(ftpPath := None), filename) == filename
    ensures PublicUrl(env.(publicUrl := Some("")), filename) == PublicUrl(env.(publicUrl := None), filename) == Render(filename)
  {
  }
}
