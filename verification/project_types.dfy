/**
 * The project types of the `PROJECT_TYPES` constants table. The table's string
 * values are not part of this model: a type string either names one of these
 * constants (`Known`) or is any other text (`Other`), such as the panel's
 * "detecting..." placeholder title.
 */
module ProjectTypes {

  datatype ProjectType =
    | Node | Python | Java | DotNet | Ruby | Go | Rust
    | React | Angular | Vue | Svelte | NextJS | NuxtJS
    | Laravel | Symfony | Django | Flask | Express
    | Spring | Hibernate | Flutter | Unknown

  /** A project-type string as the profile manager and the panels receive it. */
  datatype TypeName = Known(t: ProjectType) | Other
}
