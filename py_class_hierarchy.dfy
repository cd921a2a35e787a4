/** python/class_hierarchy.py: entities with tag sets, users with
    permission sets, resources with a data dictionary, versioned documents,
    images and administrators.

    Python inheritance is modelled by composition: each subclass object keeps
    the object of its base class in a constant field (a User has an Entity,
    a Document has a Resource, an AdminUser has a User), and the inherited
    methods are called on that object. __str__, __repr__ and
    to_printable_format depend on Python's set and dict repr and are not
    part of this model.
 */
module PyClassHierarchy {
  import opened PyValues

  /** Entity: an id, a name and a mutable set of tags. */
  class Entity {
    const id: string
    const name: string
    var tags: set<string>

    /** A new entity has no tags. */
    constructor (id: string, name: string)
      ensures this.id == id && this.name == name
      ensures tags == {}
    {
      this.id := id;
      this.name := name;
      tags := {};
    }

    /** add_tag: the tag joins the set; adding a present tag changes nothing. */
    method AddTag(tag: string)
      modifies this
      ensures tags == old(tags) + {tag}
      ensures tag in tags
      ensures tag in old(tags) ==> tags == old(tags)
    {
      tags := tags + {tag};
    }

    /** remove_tag: True exactly when the tag was present; afterwards it is
        absent and every other tag is as before. */
    method RemoveTag(tag: string) returns (removed: bool)
      modifies this
      ensures removed <==> tag in old(tags)
      ensures tags == old(tags) - {tag}
      ensures tag !in tags
      ensures forall t :: t != tag ==> (t in tags <==> t in old(tags))
    {
      if tag in tags {
        tags := tags - {tag};
        return true;
      }
      return false;
    }

    /** has_tag: True exactly when the tag is in the set; nothing changes. */
    method HasTag(tag: string) returns (b: bool)
      ensures b <==> tag in tags
    {
      b := tag in tags;
    }
  }

  /** User(Entity): an email, a role ("standard" unless given) and a
      mutable set of permissions. */
  class User {
    const entity: Entity
    const email: string
    const role: string
    var permissions: set<string>

    /** A new user has the given role, no tags and no permissions. */
    constructor (id: string, name: string, email: string, role: string := "standard")
      ensures fresh(entity)
      ensures entity.id == id && entity.name == name && entity.tags == {}
      ensures this.email == email && this.role == role
      ensures permissions == {}
    {
      entity := new Entity(id, name);
      this.email := email;
      this.role := role;
      permissions := {};
    }

    /** add_permission: the permission joins the set. */
    method AddPermission(permission: string)
      modifies this
      ensures permissions == old(permissions) + {permission}
      ensures permission in permissions
    {
      permissions := permissions + {permission};
    }

    /** has_permission: True exactly when the permission is in the set;
        nothing changes. */
    method HasPermission(permission: string) returns (b: bool)
      ensures b <==> permission in permissions
    {
      b := permission in permissions;
    }

    /** get_display_name: "name (email)", from which both parts can be read back. */
    function DisplayName(): (s: string)
      ensures |s| == |entity.name| + |email| + 3
      ensures s[..|entity.name|] == entity.name && s[|entity.name| + 2..|s| - 1] == email
      ensures s[|entity.name|..|entity.name| + 2] == " (" && s[|s| - 1] == ')'
    {
      entity.name + " (" + email + ")"
    }
  }

  /** Resource(Entity): an owner, a resource type and a mutable data dictionary. */
  class Resource {
    const entity: Entity
    const ownerId: string
    const resourceType: string
    var data: Record

    /** A new resource has no tags and no data. */
    constructor (id: string, name: string, ownerId: string, resourceType: string)
      ensures fresh(entity)
      ensures entity.id == id && entity.name == name && entity.tags == {}
      ensures this.ownerId == ownerId && this.resourceType == resourceType
      ensures data == map[]
    {
      entity := new Entity(id, name);
      this.ownerId := ownerId;
      this.resourceType := resourceType;
      data := map[];
    }

    /** update_data: the key now holds the value; every other key is unchanged. */
    method UpdateData(key: string, value: Value)
      modifies this
      ensures data == old(data)[key := value]
      ensures GetData(key, PyNone) == value
      ensures forall k :: k != key ==> GetData(k, PyNone) == old(GetData(k, PyNone))
    {
      data := data[key := value];
    }

    /** get_data: the value stored under key, or the default when the key was
        never stored. */
    function GetData(key: string, default: Value := PyNone): (v: Value)
      reads this
      ensures key in data ==> v == data[key]
      ensures key !in data ==> v == default
    {
      GetOr(data, key, default)
    }

    /** get_display_name: "name (resource_type)", from which both parts can be read back. */
    function DisplayName(): (s: string)
      ensures |s| == |entity.name| + |resourceType| + 3
      ensures s[..|entity.name|] == entity.name && s[|entity.name| + 2..|s| - 1] == resourceType
      ensures s[|entity.name|..|entity.name| + 2] == " (" && s[|s| - 1] == ')'
    {
      entity.name + " (" + resourceType + ")"
    }
  }

  /** Document(Resource): content and a version counter. */
  class Document {
    const resource: Resource
    var content: string
    var version: int

    /** A new document is a resource of type "document" at version 1. */
    constructor (id: string, name: string, ownerId: string, content: string := "")
      ensures fresh(resource) && fresh(resource.entity)
      ensures resource.entity.id == id && resource.entity.name == name && resource.entity.tags == {}
      ensures resource.ownerId == ownerId && resource.resourceType == "document"
      ensures resource.data == map[]
      ensures this.content == content && version == 1
    {
      resource := new Resource(id, name, ownerId, "document");
      this.content := content;
      version := 1;
    }

    /** update_content: the content is replaced and the version rises by one. */
    method UpdateContent(newContent: string)
      modifies this
      ensures content == newContent
      ensures version == old(version) + 1
    {
      content := newContent;
      version := version + 1;
    }
  }

  /** Image(Resource): a resource of type "image" with dimensions and a format. */
  class Image {
    const resource: Resource
    const width: int
    const height: int
    const format: string

    /** A new image is a resource of type "image"; the format is "png" unless given. */
    constructor (id: string, name: string, ownerId: string, width: int, height: int, format: string := "png")
      ensures fresh(resource) && fresh(resource.entity)
      ensures resource.entity.id == id && resource.entity.name == name && resource.entity.tags == {}
      ensures resource.ownerId == ownerId && resource.resourceType == "image"
      ensures resource.data == map[]
      ensures this.width == width && this.height == height && this.format == format
    {
      resource := new Resource(id, name, ownerId, "image");
      this.width := width;
      this.height := height;
      this.format := format;
    }
  }

  /** The permissions every administrator is created with. */
  const AdminPermissions: set<string> := {"create_user", "delete_user", "edit_resource"}

  /** AdminUser(User): a user with role "admin" and the administrator permissions. */
  class AdminUser {
    const user: User

    /** A new administrator has role "admin", exactly the three administrator
        permissions, and so can manage users. */
    constructor (id: string, name: string, email: string)
      ensures fresh(user) && fresh(user.entity)
      ensures user.entity.id == id && user.entity.name == name && user.entity.tags == {}
      ensures user.email == email && user.role == "admin"
      ensures user.permissions == AdminPermissions
      ensures "create_user" in user.permissions && "delete_user" in user.permissions
    {
      var u := new User(id, name, email, "admin");
      u.AddPermission("create_user");
      u.AddPermission("delete_user");
      u.AddPermission("edit_resource");
      user := u;
    }

    /** can_manage_users: True exactly when the user holds both create_user
        and delete_user, which a new administrator does; nothing changes. */
    method CanManageUsers() returns (b: bool)
      ensures b <==> "create_user" in user.permissions && "delete_user" in user.permissions
    {
      var create := user.HasPermission("create_user");
      if !create {
        return false;
      }
      b := user.HasPermission("delete_user");
    }

    /** get_display_name: the user's display name behind "Admin: ". */
    function DisplayName(): (s: string)
      ensures s == "Admin: " + user.DisplayName()
    {
      "Admin: " + user.entity.name + " (" + user.email + ")"
    }
  }
}
