/** The browser state the pages share: the `codebaseId` entry of local
    storage and the current route. Both pages hold the same object, so a
    write by one is seen by the other. */
module Browser {
  import opened Js

  class Env {
    /** `localStorage.getItem('codebaseId')`; None is `null`. */
    var storedCodebaseId: Option<string>
    /** The path the router shows. */
    var path: string

    constructor(stored: Option<string>, path: string)
      ensures storedCodebaseId == stored && this.path == path
    {
      storedCodebaseId := stored;
      this.path := path;
    }
  }
}
