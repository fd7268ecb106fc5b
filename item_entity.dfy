/** The item entity of the domain layer: created once, then patched in place. */
module ItemEntity {
  import opened Wrappers

  type Instant = int

  class Item {
    var id: Option<int>
    var title: string
    var description: Option<string>
    var isActive: bool
    var createdAt: Instant
    var updatedAt: Instant

    /** `Item.create`: no id yet, active, both timestamps the creation instant `now`. */
    constructor Create(title: string, description: Option<string>, now: Instant)
      ensures id == None && isActive
      ensures this.title == title && this.description == description
      ensures createdAt == now && updatedAt == now
    {
      id := None;
      this.title := title;
      this.description := description;
      isActive := true;
      createdAt := now;
      updatedAt := now;
    }

    /**
     * `Item.update`: every argument that is not `None` overwrites its field
     * (`false` and the empty string are values); `updated_at` is always the
     * clock value `now`; `id` and `created_at` never change.
     */
    method Update(title: Option<string>, description: Option<string>, isActive: Option<bool>, now: Instant)
      modifies this
      ensures this.title == if title.Some? then title.value else old(this.title)
      ensures this.description == if description.Some? then description else old(this.description)
      ensures this.isActive == if isActive.Some? then isActive.value else old(this.isActive)
      ensures updatedAt == now
      ensures id == old(id) && createdAt == old(createdAt)
    {
      if title.Some? {
        this.title := title.value;
      }
      if description.Some? {
        this.description := description;
      }
      if isActive.Some? {
        this.isActive := isActive.value;
      }
      updatedAt := now;
    }
  }
}
